/** The three record-set transforms (ChooseColsTransform, DeleteOutlierInVolume,
    ConcatDataFrames) and their left-to-right composition. */
module Transforms {
  import opened Frames

  const VOLUME: Column := "volume"
  const INNER: string := "inner"
  const OUTER: string := "outer"

  /** A constructed transform and the one parameter it was built with. */
  datatype Transform =
    | ChooseCols(columns: seq<Column>)
    | DeleteOutlierInVolume(volumeThreshold: int)
    | ConcatDataFrames(joinType: string)

  /** The transforms that accept a list and then act on each record set separately. */
  predicate CollectionAware(t: Transform) {
    t.ChooseCols? || t.DeleteOutlierInVolume?
  }

  // ---------------------------------------------------------------------------
  // Column selection: df[columns]

  /** The requested columns the record set lacks, in request order. */
  function Absent(f: Frame, cols: seq<Column>): (m: seq<Column>)
    ensures forall c :: c in m <==> c in cols && c !in f.columns
  {
    if cols == [] then []
    else (if cols[0] in f.columns then [] else [cols[0]]) + Absent(f, cols[1..])
  }

  function Project(r: Record, cols: seq<Column>): Record {
    Record(r.index, map c | c in cols && c in r.cells :: r.cells[c])
  }

  /** df[cols]: exactly the requested columns, in the requested order; rows,
      index labels and cell values unchanged; a KeyError naming every absent column. */
  function SelectColumns(f: Frame, cols: seq<Column>): (r: Result<Frame>)
    requires WellFormed(f)
    ensures r.Ok? <==> forall c :: c in cols ==> c in f.columns
    ensures r.Err? ==> r.error == MissingColumns(Absent(f, cols))
    ensures r.Ok? ==> WellFormed(r.value) && r.value.columns == cols && |r.value.records| == |f.records|
    ensures r.Ok? ==> forall i :: 0 <= i < |f.records| ==>
                        && r.value.records[i].index == f.records[i].index
                        && r.value.records[i].cells.Keys == (set c | c in cols)
                        && forall c :: c in cols ==> r.value.records[i].cells[c] == f.records[i].cells[c]
  {
    var absent := Absent(f, cols);
    if absent != [] then
      assert absent[0] in absent;
      Err(MissingColumns(absent))
    else
      Ok(Frame(cols, seq(|f.records|, i requires 0 <= i < |f.records| => Project(f.records[i], cols))))
  }

  // ---------------------------------------------------------------------------
  // Volume filter: df[df["volume"] <= volume_threshold]

  /** The row survives the filter. A missing-value marker compares false, as NaN does. */
  predicate Keeps(r: Record, threshold: int) {
    VOLUME in r.cells && r.cells[VOLUME].Num? && r.cells[VOLUME].n <= threshold
  }

  function KeepAtMost(rs: seq<Record>, threshold: int): (out: seq<Record>)
    ensures |out| <= |rs|
    ensures forall x :: x in out <==> x in rs && Keeps(x, threshold)
  {
    if rs == [] then []
    else (if Keeps(rs[0], threshold) then [rs[0]] else []) + KeepAtMost(rs[1..], threshold)
  }

  /** No volume cell holds text, which cannot be compared with a number. */
  predicate Comparable(f: Frame) {
    forall i :: 0 <= i < |f.records| ==> VOLUME in f.records[i].cells ==> !f.records[i].cells[VOLUME].Text?
  }

  /** Boolean-mask filtering keeps the columns and the surviving rows with their labels. */
  function FilterVolume(f: Frame, threshold: int): (r: Result<Frame>)
    requires WellFormed(f)
    ensures r.Ok? <==> VOLUME in f.columns && Comparable(f)
    ensures r.Err? ==> r.error == (if VOLUME in f.columns then VolumeNotComparable else MissingVolume)
    ensures r.Ok? ==> WellFormed(r.value) && r.value.columns == f.columns
    ensures r.Ok? ==> r.value.records == KeepAtMost(f.records, threshold)
  {
    if VOLUME !in f.columns then Err(MissingVolume)
    else if !Comparable(f) then Err(VolumeNotComparable)
    else
      var kept := KeepAtMost(f.records, threshold);
      assert forall j :: 0 <= j < |kept| ==> kept[j] in f.records;
      Ok(Frame(f.columns, kept))
  }

  /** Filtering distributes over concatenation: survivors keep their relative order. */
  lemma {:induction false} KeepAtMostAppend(a: seq<Record>, b: seq<Record>, threshold: int)
    ensures KeepAtMost(a + b, threshold) == KeepAtMost(a, threshold) + KeepAtMost(b, threshold)
  {
    if a == [] {
      assert a + b == b;
    } else {
      assert (a + b)[0] == a[0];
      assert (a + b)[1..] == a[1..] + b;
      KeepAtMostAppend(a[1..], b, threshold);
    }
  }

  /** Each row occurs in the output as often as in the input if it passes the filter, else never. */
  lemma {:induction false} KeepAtMostCounts(rs: seq<Record>, threshold: int, x: Record)
    ensures multiset(KeepAtMost(rs, threshold))[x] == if Keeps(x, threshold) then multiset(rs)[x] else 0
  {
    if rs != [] {
      KeepAtMostCounts(rs[1..], threshold, x);
      assert rs == [rs[0]] + rs[1..];
    }
  }

  /** A list whose every row passes the filter is left as it is. */
  lemma {:induction false} KeepAtMostOfKept(rs: seq<Record>, threshold: int)
    requires forall x :: x in rs ==> Keeps(x, threshold)
    ensures KeepAtMost(rs, threshold) == rs
  {
    if rs != [] {
      assert rs[0] in rs;
      assert forall x :: x in rs[1..] ==> x in rs;
      KeepAtMostOfKept(rs[1..], threshold);
      assert rs == [rs[0]] + rs[1..];
    }
  }

  lemma KeepAtMostIdempotent(rs: seq<Record>, threshold: int)
    ensures KeepAtMost(KeepAtMost(rs, threshold), threshold) == KeepAtMost(rs, threshold)
  {
    KeepAtMostOfKept(KeepAtMost(rs, threshold), threshold);
  }

  /** Filtering twice with the same threshold is filtering once. */
  lemma FilterVolumeIdempotent(f: Frame, threshold: int)
    requires WellFormed(f)
    requires FilterVolume(f, threshold).Ok?
    ensures FilterVolume(FilterVolume(f, threshold).value, threshold) == FilterVolume(f, threshold)
  {
    var g := FilterVolume(f, threshold).value;
    KeepAtMostIdempotent(f.records, threshold);
    forall i | 0 <= i < |g.records| && VOLUME in g.records[i].cells
      ensures !g.records[i].cells[VOLUME].Text?
    {
      assert Keeps(g.records[i], threshold);
    }
  }

  // ---------------------------------------------------------------------------
  // The list-or-single dispatch of the two collection-aware transforms

  function OnFrame(t: Transform, f: Frame): (r: Result<Frame>)
    requires CollectionAware(t) && WellFormed(f)
    ensures r.Ok? ==> WellFormed(r.value)
  {
    if t.ChooseCols? then SelectColumns(f, t.columns) else FilterVolume(f, t.volumeThreshold)
  }

  /** [t(df) for df in data]: same length and order; the first failing record set's error. */
  function OnEach(t: Transform, fs: seq<Frame>): (r: Result<seq<Frame>>)
    requires CollectionAware(t) && AllWellFormed(fs)
    ensures r.Ok? <==> forall k :: 0 <= k < |fs| ==> OnFrame(t, fs[k]).Ok?
    ensures r.Ok? ==> |r.value| == |fs| && forall k :: 0 <= k < |fs| ==> OnFrame(t, fs[k]) == Ok(r.value[k])
    ensures r.Err? ==> exists k :: 0 <= k < |fs| && OnFrame(t, fs[k]) == Err(r.error)
                                  && forall j :: 0 <= j < k ==> OnFrame(t, fs[j]).Ok?
  {
    if fs == [] then Ok([])
    else
      match OnFrame(t, fs[0])
      case Err(e) => Err(e)
      case Ok(g) =>
        match OnEach(t, fs[1..])
        case Err(e) =>
          assert exists k :: 0 <= k < |fs| - 1 && OnFrame(t, fs[1..][k]) == Err(e)
                             && forall j :: 0 <= j < k ==> OnFrame(t, fs[1..][j]).Ok?;
          var k :| 0 <= k < |fs| - 1 && OnFrame(t, fs[1..][k]) == Err(e)
                   && forall j :: 0 <= j < k ==> OnFrame(t, fs[1..][j]).Ok?;
          assert OnFrame(t, fs[k + 1]) == Err(e);
          assert forall j :: 0 <= j < k + 1 ==> OnFrame(t, fs[j]).Ok? by {
            forall j | 0 <= j < k + 1 ensures OnFrame(t, fs[j]).Ok? {
              if j > 0 { assert fs[j] == fs[1..][j - 1]; }
            }
          }
          Err(e)
        case Ok(gs) => Ok([g] + gs)
  }

  // ---------------------------------------------------------------------------
  // Concatenation: pd.concat(data, axis=0, join=join_type) then reset_index(drop=True)

  function TotalRows(fs: seq<Frame>): nat {
    if fs == [] then 0 else |fs[0].records| + TotalRows(fs[1..])
  }

  function AllColumns(fs: seq<Frame>): (cs: seq<Column>)
    ensures forall c :: c in cs <==> exists k :: 0 <= k < |fs| && c in fs[k].columns
  {
    if fs == [] then []
    else
      var rest := AllColumns(fs[1..]);
      assert forall k :: 1 <= k < |fs| ==> fs[k] == fs[1..][k - 1];
      fs[0].columns + rest
  }

  /** The columns of cs that every record set has, in the order of cs. */
  function SharedBy(cs: seq<Column>, fs: seq<Frame>): (r: seq<Column>)
    ensures forall c :: c in r <==> c in cs && forall k :: 0 <= k < |fs| ==> c in fs[k].columns
  {
    if cs == [] then []
    else
      var last := cs[|cs| - 1];
      assert cs == cs[..|cs| - 1] + [last];
      SharedBy(cs[..|cs| - 1], fs) + (if forall k :: 0 <= k < |fs| ==> last in fs[k].columns then [last] else [])
  }

  /** The other-axis index of the result: the intersection (inner) or the union
      (outer) of the column lists, each name once, in order of first appearance. */
  function JoinedColumns(fs: seq<Frame>, inner: bool): (cols: seq<Column>)
    requires |fs| > 0
    ensures Distinct(cols)
    ensures inner ==> forall c :: c in cols <==> forall k :: 0 <= k < |fs| ==> c in fs[k].columns
    ensures !inner ==> forall c :: c in cols <==> exists k :: 0 <= k < |fs| && c in fs[k].columns
  {
    if inner then Dedup(SharedBy(fs[0].columns, fs)) else Dedup(AllColumns(fs))
  }

  /** Keeping each name once commutes with keeping the shared names. */
  lemma {:induction false} DedupSharedBy(cs: seq<Column>, fs: seq<Frame>)
    ensures Dedup(SharedBy(cs, fs)) == SharedBy(Dedup(cs), fs)
  {
    if cs != [] {
      var init, last := cs[..|cs| - 1], cs[|cs| - 1];
      DedupSharedBy(init, fs);
      var d := Dedup(init);
      if forall k :: 0 <= k < |fs| ==> last in fs[k].columns {
        var sh := SharedBy(init, fs) + [last];
        assert sh[..|sh| - 1] == SharedBy(init, fs) && sh[|sh| - 1] == last;
        if last !in d {
          var dl := d + [last];
          assert dl[..|dl| - 1] == d && dl[|dl| - 1] == last;
        }
      } else {
        assert SharedBy(cs, fs) == SharedBy(init, fs);
        if last !in d {
          var dl := d + [last];
          assert dl[..|dl| - 1] == d && dl[|dl| - 1] == last;
          assert Dedup(cs) == dl;
          assert SharedBy(dl, fs) == SharedBy(d, fs);
        }
      }
    }
  }

  /** The columns of record sets 0..k-1 come first in the flattened list. */
  lemma {:induction false} AllColumnsSplit(fs: seq<Frame>, k: nat)
    requires k <= |fs|
    ensures AllColumns(fs) == AllColumns(fs[..k]) + AllColumns(fs[k..])
  {
    if k == 0 {
      assert fs[..0] == [] && fs[0..] == fs;
    } else {
      AllColumnsSplit(fs[1..], k - 1);
      assert fs[..k][1..] == fs[1..][..k - 1];
      assert fs[1..][k - 1..] == fs[k..];
    }
  }

  /** Inner join: the first record set's columns, each once, in its order, that
      every record set has. */
  lemma InnerColumnOrder(fs: seq<Frame>)
    requires |fs| > 0
    ensures JoinedColumns(fs, true) == SharedBy(Dedup(fs[0].columns), fs)
  {
    DedupSharedBy(fs[0].columns, fs);
  }

  /** Outer join: the columns of record sets 0..k-1 (each once, in order of
      first appearance) come first; every later column is new to those sets. */
  lemma OuterColumnOrder(fs: seq<Frame>, k: nat)
    requires 0 < k <= |fs|
    ensures Dedup(AllColumns(fs[..k])) <= JoinedColumns(fs, false)
    ensures forall i :: |Dedup(AllColumns(fs[..k]))| <= i < |JoinedColumns(fs, false)| ==>
              forall j :: 0 <= j < k ==> JoinedColumns(fs, false)[i] !in fs[j].columns
  {
    AllColumnsSplit(fs, k);
    DedupPrefix(AllColumns(fs[..k]), AllColumns(fs[k..]));
    forall j | 0 <= j < k ensures fs[..k][j] == fs[j] { }
  }

  /** A row re-shaped to the result columns; a column its record set lacked gets NoValue. */
  function Align(r: Record, cols: seq<Column>): Record {
    Record(r.index, map c | c in cols :: if c in r.cells then r.cells[c] else NoValue)
  }

  /** All rows of record set 0, then of record set 1, and so on, labels kept. */
  function Stack(fs: seq<Frame>, cols: seq<Column>): (rs: seq<Record>)
    ensures |rs| == TotalRows(fs)
    ensures forall i :: 0 <= i < |rs| ==> rs[i].cells.Keys == set c | c in cols
  {
    if fs == [] then []
    else seq(|fs[0].records|, i requires 0 <= i < |fs[0].records| => Align(fs[0].records[i], cols)) + Stack(fs[1..], cols)
  }

  /** reset_index(drop=True): labels become 0..n-1, nothing else changes. */
  function ResetIndex(f: Frame): (g: Frame)
    ensures g.columns == f.columns && |g.records| == |f.records|
    ensures forall i :: 0 <= i < |g.records| ==> g.records[i].index == i && g.records[i].cells == f.records[i].cells
  {
    Frame(f.columns, seq(|f.records|, i requires 0 <= i < |f.records| => Record(i, f.records[i].cells)))
  }

  function Concat(d: Data, joinType: string): (r: Result<Frame>)
    requires ValidData(d)
    ensures r.Ok? <==> d.Many? && (joinType == INNER || joinType == OUTER) && |d.frames| > 0
    ensures d.Single? ==> r == Err(NotAList)
    ensures d.Many? && joinType != INNER && joinType != OUTER ==> r == Err(InvalidJoin(joinType))
    ensures d == Many([]) && (joinType == INNER || joinType == OUTER) ==> r == Err(NoObjectsToConcatenate)
    ensures r.Ok? ==> WellFormed(r.value) && Distinct(r.value.columns)
    ensures r.Ok? ==> |r.value.records| == TotalRows(d.frames)
                      && forall i :: 0 <= i < |r.value.records| ==> r.value.records[i].index == i
    ensures r.Ok? && joinType == INNER ==>
              forall c :: c in r.value.columns <==> forall k :: 0 <= k < |d.frames| ==> c in d.frames[k].columns
    ensures r.Ok? && joinType == OUTER ==>
              forall c :: c in r.value.columns <==> exists k :: 0 <= k < |d.frames| && c in d.frames[k].columns
  {
    if d.Single? then Err(NotAList)
    else if joinType != INNER && joinType != OUTER then Err(InvalidJoin(joinType))
    else if d.frames == [] then Err(NoObjectsToConcatenate)
    else
      var cols := JoinedColumns(d.frames, joinType == INNER);
      Ok(ResetIndex(Frame(cols, Stack(d.frames, cols))))
  }

  /** Row i of record set k lands at position (rows of record sets 0..k-1) + i. */
  lemma {:induction false} StackAt(fs: seq<Frame>, cols: seq<Column>, k: nat, i: nat)
    requires k < |fs| && i < |fs[k].records|
    ensures TotalRows(fs[..k]) + i < |Stack(fs, cols)|
    ensures Stack(fs, cols)[TotalRows(fs[..k]) + i] == Align(fs[k].records[i], cols)
  {
    if k == 0 {
      assert fs[..0] == [];
    } else {
      StackAt(fs[1..], cols, k - 1, i);
      assert fs[..k][1..] == fs[1..][..k - 1];
      assert fs[1..][k - 1] == fs[k];
    }
  }

  /** Every cell of the concatenation: the source cell where the source record
      set had the column, NoValue where it did not; inner joins leave no gaps. */
  lemma ConcatRowAt(fs: seq<Frame>, joinType: string, k: nat, i: nat)
    requires AllWellFormed(fs)
    requires Concat(Many(fs), joinType).Ok?
    requires k < |fs| && i < |fs[k].records|
    ensures TotalRows(fs[..k]) + i < |Concat(Many(fs), joinType).value.records|
    ensures forall c :: c in Concat(Many(fs), joinType).value.columns ==>
              Concat(Many(fs), joinType).value.records[TotalRows(fs[..k]) + i].cells[c]
              == if c in fs[k].columns then fs[k].records[i].cells[c] else NoValue
    ensures joinType == INNER ==> forall c :: c in Concat(Many(fs), joinType).value.columns ==>
              c in fs[k].columns &&
              Concat(Many(fs), joinType).value.records[TotalRows(fs[..k]) + i].cells[c] == fs[k].records[i].cells[c]
  {
    var cols := JoinedColumns(fs, joinType == INNER);
    StackAt(fs, cols, k, i);
    assert WellFormed(fs[k]);
  }

  /** Outer join: a cell is NoValue exactly where its record set lacked the
      column or already held NoValue there. */
  lemma OuterGaps(fs: seq<Frame>, k: nat, i: nat, c: Column)
    requires AllWellFormed(fs)
    requires Concat(Many(fs), OUTER).Ok?
    requires k < |fs| && i < |fs[k].records|
    requires c in Concat(Many(fs), OUTER).value.columns
    ensures TotalRows(fs[..k]) + i < |Concat(Many(fs), OUTER).value.records|
    ensures Concat(Many(fs), OUTER).value.records[TotalRows(fs[..k]) + i].cells[c] == NoValue
            <==> c !in fs[k].columns || fs[k].records[i].cells[c] == NoValue
  {
    ConcatRowAt(fs, OUTER, k, i);
    var cell := Concat(Many(fs), OUTER).value.records[TotalRows(fs[..k]) + i].cells[c];
    assert cell == if c in fs[k].columns then fs[k].records[i].cells[c] else NoValue;
  }

  // ---------------------------------------------------------------------------
  // Application and composition

  /** One transform's __call__ on a record set or a list of them. */
  function ApplyTransform(t: Transform, d: Data): (r: Result<Data>)
    requires ValidData(d)
    ensures r.Ok? ==> ValidData(r.value)
    ensures CollectionAware(t) && d.Single? ==>
              r == match OnFrame(t, d.frame) case Err(e) => Err(e) case Ok(g) => Ok(Single(g))
    ensures CollectionAware(t) && d.Many? && r.Ok? ==>
              r.value.Many? && |r.value.frames| == |d.frames|
              && forall k :: 0 <= k < |d.frames| ==> OnFrame(t, d.frames[k]) == Ok(r.value.frames[k])
    ensures CollectionAware(t) && d.Many? && r.Err? ==>
              exists k :: 0 <= k < |d.frames| && OnFrame(t, d.frames[k]) == Err(r.error)
                          && forall j :: 0 <= j < k ==> OnFrame(t, d.frames[j]).Ok?
    ensures t.ConcatDataFrames? ==>
              r == match Concat(d, t.joinType) case Err(e) => Err(e) case Ok(g) => Ok(Single(g))
  {
    if t.ConcatDataFrames? then
      match Concat(d, t.joinType)
      case Err(e) => Err(e)
      case Ok(g) => Ok(Single(g))
    else
      match d
      case Single(f) =>
        (match OnFrame(t, f)
         case Err(e) => Err(e)
         case Ok(g) => Ok(Single(g)))
      case Many(fs) =>
        (match OnEach(t, fs)
         case Err(e) => Err(e)
         case Ok(gs) => Ok(Many(gs)))
  }

  /** Compose(transforms)(data): each transform's output is the next one's input. */
  function Run(ts: seq<Transform>, d: Data): (r: Result<Data>)
    requires ValidData(d)
    ensures r.Ok? ==> ValidData(r.value)
  {
    if ts == [] then Ok(d)
    else
      match ApplyTransform(ts[0], d)
      case Err(e) => Err(e)
      case Ok(next) => Run(ts[1..], next)
  }

  /** Running a + b is running a, then b on its output; an error stops the run. */
  lemma {:induction false} RunAppend(a: seq<Transform>, b: seq<Transform>, d: Data)
    requires ValidData(d)
    ensures Run(a + b, d) == match Run(a, d) case Err(e) => Err(e) case Ok(x) => Run(b, x)
  {
    if a == [] {
      assert a + b == b;
    } else {
      assert (a + b)[0] == a[0];
      assert (a + b)[1..] == a[1..] + b;
      match ApplyTransform(a[0], d)
      case Err(e) =>
      case Ok(next) => RunAppend(a[1..], b, next);
    }
  }

  /** The volume filter is idempotent on a record set and on a list of them. */
  lemma DeleteOutlierIdempotent(threshold: int, d: Data)
    requires ValidData(d)
    requires ApplyTransform(DeleteOutlierInVolume(threshold), d).Ok?
    ensures ApplyTransform(DeleteOutlierInVolume(threshold), ApplyTransform(DeleteOutlierInVolume(threshold), d).value)
            == ApplyTransform(DeleteOutlierInVolume(threshold), d)
  {
    var t := DeleteOutlierInVolume(threshold);
    var once := ApplyTransform(t, d).value;
    match d
    case Single(f) =>
      FilterVolumeIdempotent(f, threshold);
    case Many(fs) =>
      forall k | 0 <= k < |fs| ensures OnFrame(t, once.frames[k]) == Ok(once.frames[k]) {
        FilterVolumeIdempotent(fs[k], threshold);
      }
      var twice := OnEach(t, once.frames);
      assert twice.value == once.frames;
  }

  /** Choosing columns without "volume" makes a later volume filter raise a
      KeyError (the filter does not pass such record sets through). */
  lemma ChooseThenFilterNeedsVolume(cols: seq<Column>, threshold: int, d: Data)
    requires ValidData(d)
    requires VOLUME !in cols
    requires ApplyTransform(ChooseCols(cols), d).Ok?
    requires d.Single? || |d.frames| > 0
    ensures Run([ChooseCols(cols), DeleteOutlierInVolume(threshold)], d) == Err(MissingVolume)
  {
    var t := DeleteOutlierInVolume(threshold);
    var chosen := ApplyTransform(ChooseCols(cols), d).value;
    assert [ChooseCols(cols), t][1..] == [t];
    if d.Many? {
      var r := ApplyTransform(t, chosen);
      var k :| 0 <= k < |chosen.frames| && OnFrame(t, chosen.frames[k]) == Err(r.error);
      assert OnFrame(t, chosen.frames[0]).Err?;
    }
  }
}
