/** One "Get Data" run of the dashboard: the chosen entry and labels become a
    remote call, the entry's resolver is found by name, the records the
    resolver returns are reshaped into a table, and the views for that table
    are chosen. The remote call and the resolver's work are outside the model:
    Run takes the records they produce for a call as a parameter. */
module Pipeline {
  import opened Basics
  import opened Catalog
  import opened Selection
  import opened Reshape
  import opened Presentation

  /** The resolver an entry names, found by attribute name. */
  function ResolverFor(op: Operation): (r: Result<ApiMethod, Error>)
    ensures r.Success? ==> op.resolver == ResolverPrefix + MethodName(r.value)
    ensures r.Failure? ==> r.error == NoSuchAttribute(op.resolver)
  {
    match ResolverNamed(op.resolver)
    case None => Failure(NoSuchAttribute(op.resolver))
    case Some(m) => Success(m)
  }

  /** Reshaping the resolved records and choosing the views for the entry. */
  function Display<V>(op: Operation, records: seq<Record<V>>): Result<seq<View<V>>, Error> {
    var t :- Build(records);
    Views(op.name, t)
  }

  /** A well-formed entry's resolver is the one for the method it calls. */
  lemma ResolverMatchesMethod(op: Operation)
    requires WellFormedOperation(op)
    ensures ResolverFor(op) == Success(MethodNamed(op.value).value)
  {
    ResolverNamedFindsPrefixed(MethodNamed(op.value).value);
  }

  /** For every menu entry and every labels its boxes offer, the run calls the
      entry's own method with one argument per declared parameter (each the
      wire value filed under the chosen label, by RequestMatchesSignature), and
      flattens the response with that same method's resolver: dispatch by name
      never misses. */
  lemma MenuRequestsAreWellFormed(n: nat, interval: string, currency: string)
    requires n < |Menu|
    requires Pickable(Menu[n].params, IntervalAxis, interval)
    requires Pickable(Menu[n].params, CurrencyAxis, currency)
    ensures Request(Menu[n], interval, currency).Success?
    ensures Request(Menu[n], interval, currency).value.api == MenuMethod(n)
    ensures |Request(Menu[n], interval, currency).value.args| == |Signature(MenuMethod(n))|
    ensures ResolverFor(Menu[n]) == Success(MenuMethod(n))
  {
    var op := Menu[n];
    EntryWellFormed(n);
    RequestMatchesSignature(op, interval, currency);
    ResolverMatchesMethod(op);
  }

  /** Display fails where the reshape fails, with the reshape's error, and
      otherwise only when a timeseries entry gets records holding nothing
      but the index key, whose statistics cannot be computed. A missing
      tile value never stops a run. */
  lemma DisplayOutcome<V>(op: Operation, records: seq<Record<V>>)
    requires AllDistinctKeys(records)
    ensures Display(op, records).Success? <==>
              Build(records).Success? && (ModeOf(op.name) == Snapshot || |FirstKeys(records)| > 1)
    ensures Build(records).Failure? ==> Display(op, records) == Failure(Build(records).error)
    ensures Build(records).Success? && Display(op, records).Failure? ==>
              Display(op, records).error == NoDataColumns
    ensures Display(op, records).Failure? ==> !Display(op, records).error.EmptyColumn?
  {
    BuildSpec(records);
    if Build(records).Success? {
      ViewsOfBuiltTable(op.name, records);
    }
  }

  /** What one run produces: the remote call, the resolver applied to its
      response, and the views of the resulting table. */
  datatype Outcome<V> = Outcome(call: Call, resolver: ApiMethod, views: seq<View<V>>)

  /** One "Get Data" run for an entry and the labels picked in its boxes.
      The remote call and the resolver's flattening of its response are
      outside the model; `fetch` gives the records they produce for a call. */
  function Run<V>(op: Operation, interval: string, currency: string, fetch: Call -> seq<Record<V>>): Result<Outcome<V>, Error> {
    var call :- Request(op, interval, currency);
    var resolver :- ResolverFor(op);
    var views :- Display(op, fetch(call));
    Success(Outcome(call, resolver, views))
  }

  /** For a well-formed entry and labels its boxes offer, a run calls the
      entry's method, flattens the response with that method's resolver, and
      then succeeds exactly when the records reshape into a table the entry
      can show: any table in snapshot mode, and one with a data column in
      timeseries mode. A failing run fails with the reshape's error or for
      want of data columns. */
  lemma RunOfWellFormed<V>(op: Operation, interval: string, currency: string, fetch: Call -> seq<Record<V>>)
    requires WellFormedOperation(op)
    requires Pickable(op.params, IntervalAxis, interval)
    requires Pickable(op.params, CurrencyAxis, currency)
    ensures Request(op, interval, currency).Success?
    ensures var call := Request(op, interval, currency).value;
            var run := Run(op, interval, currency, fetch);
            && Some(call.api) == MethodNamed(op.value)
            && (run.Success? ==> run.value.call == call && Some(run.value.resolver) == MethodNamed(op.value))
            && (AllDistinctKeys(fetch(call)) ==>
                  && (run.Success? <==>
                        Build(fetch(call)).Success? && (ModeOf(op.name) == Snapshot || |FirstKeys(fetch(call))| > 1))
                  && (run.Failure? ==> run.error == NoDataColumns || run.error == Build(fetch(call)).error))
  {
    RequestMatchesSignature(op, interval, currency);
    ResolverMatchesMethod(op);
    var call := Request(op, interval, currency).value;
    if AllDistinctKeys(fetch(call)) {
      DisplayOutcome(op, fetch(call));
    }
  }

  /** Every menu entry, run with labels its boxes offer, calls its own
      method with one argument per declared parameter and uses that method's
      resolver. It shows any overview response that reshapes, and a
      response for any other entry exactly when it reshapes into a table
      with a data column. */
  lemma RunOnMenu<V>(n: nat, interval: string, currency: string, fetch: Call -> seq<Record<V>>)
    requires n < |Menu|
    requires Pickable(Menu[n].params, IntervalAxis, interval)
    requires Pickable(Menu[n].params, CurrencyAxis, currency)
    ensures Request(Menu[n], interval, currency).Success?
    ensures var call := Request(Menu[n], interval, currency).value;
            var run := Run(Menu[n], interval, currency, fetch);
            && call.api == MenuMethod(n)
            && |call.args| == |Signature(MenuMethod(n))|
            && (run.Success? ==> run.value.call == call && run.value.resolver == MenuMethod(n))
            && (AllDistinctKeys(fetch(call)) ==>
                  (run.Success? <==> Build(fetch(call)).Success? && (n == 0 || |FirstKeys(fetch(call))| > 1)))
  {
    MenuRequestsAreWellFormed(n, interval, currency);
    EntryWellFormed(n);
    SnapshotIsParameterless(n);
    RunOfWellFormed(Menu[n], interval, currency, fetch);
  }

  // ---------------------------------------------------------------------
  // Worked runs

  /** "Network Hashrate" over "7 Days" calls the hashrate method with the
      single argument "_7_DAYS". */
  lemma HashrateRequest()
    ensures Request(Menu[2], "7 Days", "") == Success(Call(GetNetworkHashrate, ["_7_DAYS"]))
  {
    NetworkHashrateMethod();
    OfferedLabelsResolve(Menu[2].params, IntervalAxis, 1) by {
      EntryWellFormed(2);
    }
  }

  /** Two records with a time key and a value key give a two-row table
      indexed by the time key, with the value column in record order; under
      "Network Hashrate" it is shown as a timeseries. */
  lemma HashrateDisplay<V>(time: Key, rate: Key, t0: V, r0: V, t1: V, r1: V)
    requires time != rate
    ensures var rs := [[(time, t0), (rate, r0)], [(time, t1), (rate, r1)]];
            && Build(rs) == Success(Table(time, [t0, t1], [Column(rate, [r0, r1])]))
            && Display(Menu[2], rs) == Success([LineChart, AreaChart, Statistics, RawData])
  {
    var rs := [[(time, t0), (rate, r0)], [(time, t1), (rate, r1)]];
    assert Keys(rs[0]) == [time, rate];
    assert Keys(rs[1]) == [time, rate];
    RowsOfBuild(rs);
    var t := Build(rs).value;
    assert Row(t, 0) == rs[0] && Row(t, 1) == rs[1] by {
      assert Rows(t)[0] == rs[0] && Rows(t)[1] == rs[1];
    }
    assert |t.columns| == 1 by {
      BuildSpec(rs);
      assert |Names(t.columns)| == 1;
    }
    assert |t.index| == 2 by {
      assert |Rows(t)| == |rs|;
    }
    assert Row(t, 0)[0] == (time, t0) && Row(t, 1)[0] == (time, t1);
    assert Row(t, 0)[1] == (rate, r0) && Row(t, 1)[1] == (rate, r1);
    assert t.index == [t0, t1];
    assert t.columns[0].values == [r0, r1];
    assert t.columns == [Column(rate, [r0, r1])];
    assert Menu[2].name != SnapshotLabel by {
      SnapshotIsParameterless(2);
    }
  }

  /** Records holding only the time key build a table with no data column;
      "Network Hashrate" cannot summarise it, so the run stops. */
  lemma IndexOnlyHashrateFails<V>(time: Key, t0: V, t1: V)
    ensures Display(Menu[2], [[(time, t0)], [(time, t1)]]) == Failure(NoDataColumns)
  {
    var rs := [[(time, t0)], [(time, t1)]];
    assert Keys(rs[0]) == [time] && Keys(rs[1]) == [time];
    RowsOfBuild(rs);
    assert AllDistinctKeys(rs);
    assert Menu[2].name != SnapshotLabel by {
      SnapshotIsParameterless(2);
    }
    DisplayOutcome(Menu[2], rs);
  }

  /** "Bitcoin Overview" calls the overview method without arguments. */
  lemma OverviewRequest()
    ensures Request(Menu[0], "", "") == Success(Call(GetBitcoinOverview, []))
  {
    OverviewMethod();
  }

  /** Under "Bitcoin Overview" a one-record response is shown as metric
      tiles: the heading, one tile per non-index field with that field's
      value, and the raw table. */
  lemma OverviewDisplay<V>(time: Key, price: Key, difficulty: Key, t0: V, p0: V, d0: V)
    requires time != price && time != difficulty && price != difficulty
    ensures Display(Menu[0], [[(time, t0), (price, p0), (difficulty, d0)]])
            == Success([Subheader(MetricsTitle), Metric(price, p0), Metric(difficulty, d0), RawData])
  {
    assert ModeOf(Menu[0].name) == Snapshot by {
      SnapshotIsParameterless(0);
    }
    var r := [(time, t0), (price, p0), (difficulty, d0)];
    assert Keys(r) == [time, price, difficulty];
    SingleRecordBuilds(r);
    ViewsOfBuiltTable(Menu[0].name, [r]);
    ValueOfAt(r, 1);
    ValueOfAt(r, 2);
    var vs := Display(Menu[0], [r]).value;
    assert |vs| == 4;
    assert vs[1] == Metric(price, p0) && vs[2] == Metric(difficulty, d0);
    assert vs == [Subheader(MetricsTitle), Metric(price, p0), Metric(difficulty, d0), RawData];
  }
}
