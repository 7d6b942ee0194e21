/** The dashboard's operation catalog: six menu entries, each naming a remote
    API method, the resolver that flattens its response, and up to two
    parameter axes mapping display labels to wire values. The remote client
    and its resolvers are reached by name in the dashboard; here that dispatch
    is a closed datatype and a name lookup that can miss. */
module Catalog {
  import opened Basics

  /** The remote operations of the hashrate-index client. */
  datatype ApiMethod =
    | GetBitcoinOverview
    | GetHashprice
    | GetNetworkHashrate
    | GetNetworkDifficulty
    | GetOhlcPrices
    | GetAsicPriceIndex

  const IntervalAxis: string := "inputInterval"
  const CurrencyAxis: string := "currency"
  const ResolverPrefix: string := "resolve_"

  /** The client's attribute name for each remote operation. */
  function MethodName(m: ApiMethod): string {
    match m
    case GetBitcoinOverview => "get_bitcoin_overview"
    case GetHashprice => "get_hashprice"
    case GetNetworkHashrate => "get_network_hashrate"
    case GetNetworkDifficulty => "get_network_difficulty"
    case GetOhlcPrices => "get_ohlc_prices"
    case GetAsicPriceIndex => "get_asic_price_index"
  }

  /** Attribute lookup on the client: the method with this name, if any. */
  function MethodNamed(name: string): (r: Option<ApiMethod>)
    ensures r.Some? ==> MethodName(r.value) == name
  {
    if name == "get_bitcoin_overview" then Some(GetBitcoinOverview)
    else if name == "get_hashprice" then Some(GetHashprice)
    else if name == "get_network_hashrate" then Some(GetNetworkHashrate)
    else if name == "get_network_difficulty" then Some(GetNetworkDifficulty)
    else if name == "get_ohlc_prices" then Some(GetOhlcPrices)
    else if name == "get_asic_price_index" then Some(GetAsicPriceIndex)
    else None
  }

  /** Name lookup inverts MethodName: every method is found under its own
      name, and a name finds a method exactly when it is that method's name. */
  lemma MethodNamedInvertsName(m: ApiMethod, name: string)
    ensures MethodNamed(MethodName(m)) == Some(m)
    ensures MethodNamed(name) == Some(m) <==> name == MethodName(m)
  {
  }

  /** Attribute lookup on the resolver object: resolvers are named by the
      prefix "resolve_" followed by the method name they flatten. */
  function ResolverNamed(name: string): (r: Option<ApiMethod>)
    ensures r.Some? ==> name == ResolverPrefix + MethodName(r.value)
  {
    if |name| >= |ResolverPrefix| && name[..|ResolverPrefix|] == ResolverPrefix
    then
      var r := MethodNamed(name[|ResolverPrefix|..]);
      assert r.Some? ==> name == name[..|ResolverPrefix|] + name[|ResolverPrefix|..];
      r
    else None
  }

  /** Every method's resolver is found under its prefixed name. */
  lemma ResolverNamedFindsPrefixed(m: ApiMethod)
    ensures ResolverNamed(ResolverPrefix + MethodName(m)) == Some(m)
  {
    var name := ResolverPrefix + MethodName(m);
    assert name[..|ResolverPrefix|] == ResolverPrefix;
    assert name[|ResolverPrefix|..] == MethodName(m);
    MethodNamedInvertsName(m, MethodName(m));
  }

  /** The declared positional parameters of each client method. */
  function Signature(m: ApiMethod): seq<string> {
    match m
    case GetBitcoinOverview => []
    case GetHashprice => [IntervalAxis, CurrencyAxis]
    case GetNetworkHashrate => [IntervalAxis]
    case GetNetworkDifficulty => [IntervalAxis]
    case GetOhlcPrices => [IntervalAxis]
    case GetAsicPriceIndex => [IntervalAxis, CurrencyAxis]
  }

  /** Every signature is empty, the interval alone, or the interval then the
      currency: no method takes a currency without an interval. */
  lemma SignatureShapes(m: ApiMethod)
    ensures Signature(m) == [] || Signature(m) == [IntervalAxis]
         || Signature(m) == [IntervalAxis, CurrencyAxis]
    ensures CurrencyAxis in Signature(m) ==> IntervalAxis in Signature(m)
  {
  }

  /** The interval options each method documents. */
  function DocumentedIntervals(m: ApiMethod): seq<string> {
    match m
    case GetBitcoinOverview => []
    case GetNetworkDifficulty => ["_3_MONTHS", "_6_MONTHS", "_1_YEAR", "_3_YEAR", "ALL"]
    case GetAsicPriceIndex => ["_3_MONTHS", "_6_MONTHS", "_1_YEAR", "ALL"]
    case _ => ["_1_DAY", "_7_DAYS", "_1_MONTH", "_3_MONTHS", "_1_YEAR", "ALL"]
  }

  /** The currency options each method documents. */
  function DocumentedCurrencies(m: ApiMethod): seq<string> {
    match m
    case GetHashprice => ["USD", "BTC"]
    case GetAsicPriceIndex => ["USD", "BTC"]
    case _ => []
  }

  /** The documented options for one parameter of a method. */
  function Documented(m: ApiMethod, axis: string): seq<string> {
    if axis == IntervalAxis then DocumentedIntervals(m)
    else if axis == CurrencyAxis then DocumentedCurrencies(m)
    else []
  }

  /** One menu choice of an axis: what the user sees and what is sent. */
  datatype Choice = Choice(display: string, wire: string)

  /** One parameter axis, its choices in menu order. */
  datatype Axis = Axis(name: string, choices: seq<Choice>)

  /** One catalog entry: menu label, client method name, resolver name, axes. */
  datatype Operation = Operation(name: string, value: string, resolver: string, params: seq<Axis>)

  function Labels(a: Axis): seq<string> {
    seq(|a.choices|, i requires 0 <= i < |a.choices| => a.choices[i].display)
  }

  function Wires(a: Axis): seq<string> {
    seq(|a.choices|, i requires 0 <= i < |a.choices| => a.choices[i].wire)
  }

  function AxisNames(params: seq<Axis>): seq<string> {
    seq(|params|, i requires 0 <= i < |params| => params[i].name)
  }

  function OperationLabels(ops: seq<Operation>): seq<string> {
    seq(|ops|, i requires 0 <= i < |ops| => ops[i].name)
  }

  const StandardIntervals: seq<Choice> := [
    Choice("1 Day", "_1_DAY"),
    Choice("7 Days", "_7_DAYS"),
    Choice("1 Month", "_1_MONTH"),
    Choice("3 Months", "_3_MONTHS"),
    Choice("1 Year", "_1_YEAR"),
    Choice("All", "ALL")
  ]

  const Currencies: seq<Choice> := [Choice("USD", "USD"), Choice("BTC", "BTC")]

  const Overview := Operation("Bitcoin Overview", "get_bitcoin_overview", "resolve_get_bitcoin_overview", [])

  const Hashprice := Operation("Hashprice", "get_hashprice", "resolve_get_hashprice",
    [Axis(IntervalAxis, StandardIntervals), Axis(CurrencyAxis, Currencies)])

  const NetworkHashrate := Operation("Network Hashrate", "get_network_hashrate", "resolve_get_network_hashrate",
    [Axis(IntervalAxis, StandardIntervals)])

  const NetworkDifficulty := Operation("Network Difficulty", "get_network_difficulty", "resolve_get_network_difficulty",
    [Axis(IntervalAxis, [
      Choice("3 Months", "_3_MONTHS"),
      Choice("6 Months", "_6_MONTHS"),
      Choice("1 Year", "_1_YEAR"),
      Choice("3 Years", "_3_YEAR"),
      Choice("All", "ALL")])])

  const OhlcPrices := Operation("OLHC Prices", "get_ohlc_prices", "resolve_get_ohlc_prices",
    [Axis(IntervalAxis, StandardIntervals)])

  const AsicPriceIndex := Operation("ASIC Price Index", "get_asic_price_index", "resolve_get_asic_price_index",
    [Axis(IntervalAxis, [
      Choice("3 Months", "_3_MONTHS"),
      Choice("6 Months", "_6_MONTHS"),
      Choice("1 Year", "_1_YEAR"),
      Choice("All", "ALL")]),
     Axis(CurrencyAxis, Currencies)])

  /** The menu, in the order it is offered. */
  const Menu: seq<Operation> := [Overview, Hashprice, NetworkHashrate, NetworkDifficulty, OhlcPrices, AsicPriceIndex]

  /** An axis offers at least one choice, no label or wire value twice, and
      only wire values the method documents for that parameter. */
  predicate WellFormedAxis(a: Axis, documented: seq<string>) {
    && |a.choices| > 0
    && Distinct(Labels(a))
    && Distinct(Wires(a))
    && forall i :: 0 <= i < |a.choices| ==> a.choices[i].wire in documented
  }

  /** An entry names a real method, its resolver by the prefix rule, and
      exactly that method's parameters, in order, as its axes. */
  predicate WellFormedOperation(op: Operation) {
    && MethodNamed(op.value).Some?
    && op.resolver == ResolverPrefix + op.value
    && AxisNames(op.params) == Signature(MethodNamed(op.value).value)
    && forall i :: 0 <= i < |op.params| ==>
         WellFormedAxis(op.params[i], Documented(MethodNamed(op.value).value, op.params[i].name))
  }

  /** Menu labels are distinct, every entry is well formed, and no two
      entries call the same method. */
  predicate WellFormedCatalog(ops: seq<Operation>) {
    && Distinct(OperationLabels(ops))
    && (forall n :: 0 <= n < |ops| ==> WellFormedOperation(ops[n]))
    && forall n, n' :: 0 <= n < n' < |ops| ==> ops[n].value != ops[n'].value
  }

  lemma {:induction false} StandardIntervalsWellFormed(m: ApiMethod)
    requires m in {GetHashprice, GetNetworkHashrate, GetOhlcPrices}
    ensures WellFormedAxis(Axis(IntervalAxis, StandardIntervals), DocumentedIntervals(m))
  {
    var a := Axis(IntervalAxis, StandardIntervals);
    assert Labels(a) == ["1 Day", "7 Days", "1 Month", "3 Months", "1 Year", "All"];
    assert Wires(a) == ["_1_DAY", "_7_DAYS", "_1_MONTH", "_3_MONTHS", "_1_YEAR", "ALL"];
  }

  lemma {:induction false} CurrenciesWellFormed(m: ApiMethod)
    requires m in {GetHashprice, GetAsicPriceIndex}
    ensures WellFormedAxis(Axis(CurrencyAxis, Currencies), DocumentedCurrencies(m))
  {
    var a := Axis(CurrencyAxis, Currencies);
    assert Labels(a) == ["USD", "BTC"];
    assert Wires(a) == ["USD", "BTC"];
  }

  lemma {:induction false} DifficultyIntervalsWellFormed()
    ensures WellFormedAxis(NetworkDifficulty.params[0], DocumentedIntervals(GetNetworkDifficulty))
  {
    var a := NetworkDifficulty.params[0];
    assert Labels(a) == ["3 Months", "6 Months", "1 Year", "3 Years", "All"];
    assert Wires(a) == ["_3_MONTHS", "_6_MONTHS", "_1_YEAR", "_3_YEAR", "ALL"];
  }

  lemma {:induction false} AsicIntervalsWellFormed()
    ensures WellFormedAxis(AsicPriceIndex.params[0], DocumentedIntervals(GetAsicPriceIndex))
  {
    var a := AsicPriceIndex.params[0];
    assert Labels(a) == ["3 Months", "6 Months", "1 Year", "All"];
    assert Wires(a) == ["_3_MONTHS", "_6_MONTHS", "_1_YEAR", "ALL"];
  }

  /** The method each menu position calls. */
  function MenuMethod(n: nat): ApiMethod {
    if n == 0 then GetBitcoinOverview
    else if n == 1 then GetHashprice
    else if n == 2 then GetNetworkHashrate
    else if n == 3 then GetNetworkDifficulty
    else if n == 4 then GetOhlcPrices
    else GetAsicPriceIndex
  }

  lemma WellFormedOperationIntro(op: Operation, m: ApiMethod)
    requires MethodNamed(op.value) == Some(m)
    requires op.resolver == ResolverPrefix + op.value
    requires AxisNames(op.params) == Signature(m)
    requires forall i :: 0 <= i < |op.params| ==> WellFormedAxis(op.params[i], Documented(m, op.params[i].name))
    ensures WellFormedOperation(op)
  {
  }

  lemma OverviewMethod()
    ensures MethodNamed(Overview.value) == Some(GetBitcoinOverview)
  {
  }

  lemma OverviewResolver()
    ensures Overview.resolver == ResolverPrefix + Overview.value
  {
  }

  lemma {:induction false} OverviewWellFormed()
    ensures WellFormedOperation(Overview)
  {
    OverviewMethod();
    OverviewResolver();
    assert AxisNames(Overview.params) == Signature(GetBitcoinOverview);
    WellFormedOperationIntro(Overview, GetBitcoinOverview);
  }

  lemma HashpriceMethod()
    ensures MethodNamed(Hashprice.value) == Some(GetHashprice)
  {
  }

  lemma HashpriceResolver()
    ensures Hashprice.resolver == ResolverPrefix + Hashprice.value
  {
  }

  lemma {:induction false} HashpriceWellFormed()
    ensures WellFormedOperation(Hashprice)
  {
    HashpriceMethod();
    HashpriceResolver();
    assert AxisNames(Hashprice.params) == Signature(GetHashprice);
    assert forall i :: 0 <= i < |Hashprice.params| ==> WellFormedAxis(Hashprice.params[i], Documented(GetHashprice, Hashprice.params[i].name)) by {
      StandardIntervalsWellFormed(GetHashprice);
      CurrenciesWellFormed(GetHashprice);
    }
    WellFormedOperationIntro(Hashprice, GetHashprice);
  }

  lemma NetworkHashrateMethod()
    ensures MethodNamed(NetworkHashrate.value) == Some(GetNetworkHashrate)
  {
  }

  lemma NetworkHashrateResolver()
    ensures NetworkHashrate.resolver == ResolverPrefix + NetworkHashrate.value
  {
  }

  lemma {:induction false} NetworkHashrateWellFormed()
    ensures WellFormedOperation(NetworkHashrate)
  {
    NetworkHashrateMethod();
    NetworkHashrateResolver();
    assert AxisNames(NetworkHashrate.params) == Signature(GetNetworkHashrate);
    assert forall i :: 0 <= i < |NetworkHashrate.params| ==> WellFormedAxis(NetworkHashrate.params[i], Documented(GetNetworkHashrate, NetworkHashrate.params[i].name)) by {
      StandardIntervalsWellFormed(GetNetworkHashrate);
    }
    WellFormedOperationIntro(NetworkHashrate, GetNetworkHashrate);
  }

  lemma NetworkDifficultyMethod()
    ensures MethodNamed(NetworkDifficulty.value) == Some(GetNetworkDifficulty)
  {
  }

  lemma NetworkDifficultyResolver()
    ensures NetworkDifficulty.resolver == ResolverPrefix + NetworkDifficulty.value
  {
  }

  lemma {:induction false} NetworkDifficultyWellFormed()
    ensures WellFormedOperation(NetworkDifficulty)
  {
    NetworkDifficultyMethod();
    NetworkDifficultyResolver();
    assert AxisNames(NetworkDifficulty.params) == Signature(GetNetworkDifficulty);
    assert forall i :: 0 <= i < |NetworkDifficulty.params| ==> WellFormedAxis(NetworkDifficulty.params[i], Documented(GetNetworkDifficulty, NetworkDifficulty.params[i].name)) by {
      DifficultyIntervalsWellFormed();
    }
    WellFormedOperationIntro(NetworkDifficulty, GetNetworkDifficulty);
  }

  lemma OhlcPricesMethod()
    ensures MethodNamed(OhlcPrices.value) == Some(GetOhlcPrices)
  {
  }

  lemma OhlcPricesResolver()
    ensures OhlcPrices.resolver == ResolverPrefix + OhlcPrices.value
  {
  }

  lemma {:induction false} OhlcPricesWellFormed()
    ensures WellFormedOperation(OhlcPrices)
  {
    OhlcPricesMethod();
    OhlcPricesResolver();
    assert AxisNames(OhlcPrices.params) == Signature(GetOhlcPrices);
    assert forall i :: 0 <= i < |OhlcPrices.params| ==> WellFormedAxis(OhlcPrices.params[i], Documented(GetOhlcPrices, OhlcPrices.params[i].name)) by {
      StandardIntervalsWellFormed(GetOhlcPrices);
    }
    WellFormedOperationIntro(OhlcPrices, GetOhlcPrices);
  }

  lemma AsicPriceIndexMethod()
    ensures MethodNamed(AsicPriceIndex.value) == Some(GetAsicPriceIndex)
  {
  }

  lemma AsicPriceIndexResolver()
    ensures AsicPriceIndex.resolver == ResolverPrefix + AsicPriceIndex.value
  {
  }

  lemma {:induction false} AsicPriceIndexWellFormed()
    ensures WellFormedOperation(AsicPriceIndex)
  {
    AsicPriceIndexMethod();
    AsicPriceIndexResolver();
    assert AxisNames(AsicPriceIndex.params) == Signature(GetAsicPriceIndex);
    assert forall i :: 0 <= i < |AsicPriceIndex.params| ==> WellFormedAxis(AsicPriceIndex.params[i], Documented(GetAsicPriceIndex, AsicPriceIndex.params[i].name)) by {
      AsicIntervalsWellFormed();
      CurrenciesWellFormed(GetAsicPriceIndex);
    }
    WellFormedOperationIntro(AsicPriceIndex, GetAsicPriceIndex);
  }

  /** Each entry of the dashboard's catalog is well formed. */
  lemma {:induction false} EntryWellFormed(n: nat)
    requires n < |Menu|
    ensures WellFormedOperation(Menu[n])
    ensures MethodNamed(Menu[n].value) == Some(MenuMethod(n))
  {
    if n == 0 { OverviewWellFormed(); }
    else if n == 1 { HashpriceWellFormed(); }
    else if n == 2 { NetworkHashrateWellFormed(); }
    else if n == 3 { NetworkDifficultyWellFormed(); }
    else if n == 4 { OhlcPricesWellFormed(); }
    else { AsicPriceIndexWellFormed(); }
  }

  /** No two menu entries share a label. */
  lemma MenuLabelsDistinct()
    ensures Distinct(OperationLabels(Menu))
  {
    assert OperationLabels(Menu) == [Overview.name, Hashprice.name, NetworkHashrate.name,
                                     NetworkDifficulty.name, OhlcPrices.name, AsicPriceIndex.name];
  }

  /** The dashboard's catalog satisfies every invariant above. */
  lemma CatalogWellFormed()
    ensures WellFormedCatalog(Menu)
  {
    MenuLabelsDistinct();
    forall n | 0 <= n < |Menu|
      ensures WellFormedOperation(Menu[n]) && MethodNamed(Menu[n].value) == Some(MenuMethod(n))
    {
      EntryWellFormed(n);
    }
  }

  /** The axes of a well-formed entry are named only inputInterval or
      currency, each at most once. */
  lemma AxisNamesAreKnown(op: Operation)
    requires WellFormedOperation(op)
    ensures forall i :: 0 <= i < |op.params| ==> op.params[i].name in {IntervalAxis, CurrencyAxis}
    ensures Distinct(AxisNames(op.params))
  {
    var m := MethodNamed(op.value).value;
    SignatureShapes(m);
    assert forall i :: 0 <= i < |op.params| ==> op.params[i].name == AxisNames(op.params)[i];
  }

  /** The menu position of each method. */
  function EntryFor(m: ApiMethod): (n: nat)
    ensures n < |Menu| && MethodNamed(Menu[n].value) == Some(m)
  {
    match m
    case GetBitcoinOverview => 0
    case GetHashprice => 1
    case GetNetworkHashrate => 2
    case GetNetworkDifficulty => 3
    case GetOhlcPrices => 4
    case GetAsicPriceIndex => 5
  }

  /** Every remote method is offered by exactly one menu entry. */
  lemma CatalogCoversEveryMethodOnce(m: ApiMethod)
    ensures exists n :: 0 <= n < |Menu| && MethodNamed(Menu[n].value) == Some(m)
    ensures forall n, n' :: 0 <= n < |Menu| && 0 <= n' < |Menu|
              && MethodNamed(Menu[n].value) == Some(m) && MethodNamed(Menu[n'].value) == Some(m)
              ==> n == n'
  {
    CatalogWellFormed();
    var e := EntryFor(m);
    assert 0 <= e < |Menu| && MethodNamed(Menu[e].value) == Some(m);
  }

  /** Menu lookup by menu label (the first entry carrying it). */
  function OperationNamed(ops: seq<Operation>, name: string): (r: Option<Operation>)
    ensures r.Some? ==> r.value in ops && r.value.name == name
    ensures r.None? ==> name !in OperationLabels(ops)
  {
    if |ops| == 0 then None
    else if ops[0].name == name then Some(ops[0])
    else
      var r := OperationNamed(ops[1..], name);
      assert OperationLabels(ops) == [ops[0].name] + OperationLabels(ops[1..]);
      r
  }

  /** With distinct labels, looking an entry up by its own label returns that
      entry unchanged. */
  lemma {:induction false} OperationNamedFindsEntry(ops: seq<Operation>, n: nat)
    requires Distinct(OperationLabels(ops))
    requires n < |ops|
    ensures OperationNamed(ops, ops[n].name) == Some(ops[n])
  {
    if n > 0 {
      assert OperationLabels(ops)[0] != OperationLabels(ops)[n];
      var tail := ops[1..];
      assert OperationLabels(tail) == OperationLabels(ops)[1..];
      OperationNamedFindsEntry(tail, n - 1);
    }
  }
}
