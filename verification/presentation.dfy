/** Which views the dashboard requests for a built table. The overview entry
    is a snapshot shown as one metric tile per data column; every other entry
    is a timeseries shown as line chart, area chart and summary statistics.
    The raw table is shown in both modes. */
module Presentation {
  import opened Basics
  import opened Catalog
  import opened Reshape

  datatype Mode = Snapshot | Timeseries

  /** The one menu label shown as metric tiles. */
  const SnapshotLabel: string := "Bitcoin Overview"

  const MetricsTitle: string := "Bitcoin Metrics"

  function ModeOf(name: string): Mode {
    if name != SnapshotLabel then Timeseries else Snapshot
  }

  /** One rendering request. */
  datatype View<V> =
    | LineChart
    | AreaChart
    | Statistics
    | Subheader(title: string)
    | Metric(caption: Key, value: V)
    | RawData

  /** One metric tile per data column, captioned by the column's key and
      showing its first value; a column with no values has no first value. */
  function Metrics<V>(cols: seq<Column<V>>): (r: Result<seq<View<V>>, Error>)
    ensures r.Success? <==> forall j :: 0 <= j < |cols| ==> |cols[j].values| > 0
    ensures r.Success? ==>
              && |r.value| == |cols|
              && forall j :: 0 <= j < |cols| ==> r.value[j] == Metric(cols[j].key, cols[j].values[0])
    ensures r.Failure? ==> exists j :: 0 <= j < |cols| && r.error == EmptyColumn(cols[j].key)
  {
    if |cols| == 0 then Success([])
    else if |cols[0].values| == 0 then Failure(EmptyColumn(cols[0].key))
    else
      match Metrics(cols[1..])
      case Failure(e) =>
        assert exists j :: 1 <= j < |cols| && e == EmptyColumn(cols[j].key) by {
          var j :| 0 <= j < |cols[1..]| && e == EmptyColumn(cols[1..][j].key);
          assert cols[1..][j] == cols[j + 1];
        }
        Failure(e)
      case Success(rest) =>
        assert forall j :: 1 <= j < |cols| ==> cols[j] == cols[1..][j - 1];
        Success([Metric(cols[0].key, cols[0].values[0])] + rest)
  }

  /** The views requested for a table under the entry with this menu label.
      A timeseries also asks for summary statistics, which cannot be computed
      for a table that has only its index. */
  function Views<V>(name: string, t: Table<V>): (r: Result<seq<View<V>>, Error>)
    ensures r.Success? ==> |r.value| > 0 && r.value[|r.value| - 1] == RawData
    ensures ModeOf(name) == Timeseries && |t.columns| > 0 ==> r == Success([LineChart, AreaChart, Statistics, RawData])
    ensures ModeOf(name) == Timeseries && |t.columns| == 0 ==> r == Failure(NoDataColumns)
    ensures ModeOf(name) == Snapshot && r.Success? ==>
              && r.value[0] == Subheader(MetricsTitle)
              && forall v :: v in r.value ==> v !in {LineChart, AreaChart, Statistics}
    ensures ModeOf(name) == Snapshot && r.Failure? ==> r.error.EmptyColumn?
  {
    match ModeOf(name)
    case Timeseries =>
      if |t.columns| == 0 then Failure(NoDataColumns)
      else Success([LineChart, AreaChart, Statistics, RawData])
    case Snapshot =>
      var tiles :- Metrics(t.columns);
      Success([Subheader(MetricsTitle)] + tiles + [RawData])
  }

  /** The catalog's snapshot entry is exactly its entry without parameters:
      the label rule agrees with the rule "no interval axis, one entity". */
  lemma {:induction false} SnapshotIsParameterless(n: nat)
    requires n < |Menu|
    ensures ModeOf(Menu[n].name) == Snapshot <==> Menu[n].params == []
    ensures ModeOf(Menu[n].name) == Snapshot <==> n == 0
  {
    MenuLabelsDistinct();
    assert OperationLabels(Menu)[0] == SnapshotLabel;
    if n != 0 {
      assert OperationLabels(Menu)[n] != OperationLabels(Menu)[0];
    }
  }

  /** Under the snapshot entry a table built from well-formed records is
      shown as the heading, then one tile per non-index key of the first
      record, in that record's key order, each showing the first record's
      value under that key, then the raw table. */
  lemma SnapshotViewsOfBuiltTable<V>(rs: seq<Record<V>>)
    requires AllDistinctKeys(rs)
    requires Build(rs).Success?
    ensures Views(SnapshotLabel, Build(rs).value).Success?
    ensures var vs := Views(SnapshotLabel, Build(rs).value).value;
            var keys := FirstKeys(rs);
            && |vs| == |keys| + 1
            && vs[0] == Subheader(MetricsTitle)
            && vs[|vs| - 1] == RawData
            && forall j :: 1 <= j < |keys| ==>
                 keys[j] in Keys(rs[0]) && vs[j] == Metric(keys[j], ValueOf(rs[0], keys[j]))
  {
    BuildSpec(rs);
    BuildColumnsStartWithFirstRecord(rs);
    var t := Build(rs).value;
    var tiles := Metrics(t.columns);
    var keys := FirstKeys(rs);
    assert tiles.Success?;
    assert |tiles.value| == |t.columns| == |keys| - 1 by {
      assert |Names(t.columns)| == |keys[1..]|;
    }
    var vs := [Subheader(MetricsTitle)] + tiles.value + [RawData];
    assert Views(SnapshotLabel, t) == Success(vs);
    forall j | 1 <= j < |keys|
      ensures keys[j] in Keys(rs[0]) && vs[j] == Metric(keys[j], ValueOf(rs[0], keys[j]))
    {
      assert Names(t.columns)[j - 1] == keys[j];
      assert vs[j] == tiles.value[j - 1];
    }
  }

  /** On a table built from well-formed records, the views fail only for a
      timeseries whose records carry nothing but the index key, which has
      no statistics. Otherwise a timeseries entry gets both charts, the
      statistics and the raw table, and the snapshot entry gets the views
      stated by the lemma above. */
  lemma ViewsOfBuiltTable<V>(name: string, rs: seq<Record<V>>)
    requires AllDistinctKeys(rs)
    requires Build(rs).Success?
    ensures Views(name, Build(rs).value).Success? <==> ModeOf(name) == Snapshot || |FirstKeys(rs)| > 1
    ensures Views(name, Build(rs).value).Failure? ==> Views(name, Build(rs).value).error == NoDataColumns
    ensures ModeOf(name) == Timeseries && |FirstKeys(rs)| > 1 ==>
              Views(name, Build(rs).value) == Success([LineChart, AreaChart, Statistics, RawData])
    ensures ModeOf(name) == Snapshot ==>
              var vs := Views(name, Build(rs).value).value;
              var keys := FirstKeys(rs);
              && |vs| == |keys| + 1
              && vs[0] == Subheader(MetricsTitle)
              && vs[|vs| - 1] == RawData
              && forall j :: 1 <= j < |keys| ==>
                   keys[j] in Keys(rs[0]) && vs[j] == Metric(keys[j], ValueOf(rs[0], keys[j]))
  {
    BuildSpec(rs);
    var t := Build(rs).value;
    assert |t.columns| == |FirstKeys(rs)| - 1 by {
      assert |Names(t.columns)| == |FirstKeys(rs)[1..]|;
    }
    if ModeOf(name) == Snapshot {
      assert name == SnapshotLabel;
      SnapshotViewsOfBuiltTable(rs);
    }
  }
}
