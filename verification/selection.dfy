/** Turning the user's menu choices into the remote call: each axis the chosen
    operation has contributes the wire value of the chosen label, an absent
    axis contributes nothing, and the wire values become the positional
    arguments of the call by a fixed arity rule. */
module Selection {
  import opened Basics
  import opened Catalog

  /** The axis of this name among an operation's parameters, if it has one. */
  function AxisNamed(params: seq<Axis>, name: string): (r: Option<Axis>)
    ensures r.Some? ==> r.value in params && r.value.name == name
    ensures r.None? ==> name !in AxisNames(params)
  {
    if |params| == 0 then None
    else if params[0].name == name then Some(params[0])
    else
      assert AxisNames(params) == [params[0].name] + AxisNames(params[1..]);
      AxisNamed(params[1..], name)
  }

  /** The wire value filed under a display label in one axis, if any. */
  function WireOf(choices: seq<Choice>, display: string): (r: Option<string>)
    ensures r.Some? ==> Choice(display, r.value) in choices
    ensures r.None? ==> forall i :: 0 <= i < |choices| ==> choices[i].display != display
  {
    if |choices| == 0 then None
    else if choices[0].display == display then Some(choices[0].wire)
    else WireOf(choices[1..], display)
  }

  /** The labels a selection box offers for this axis: the axis's labels in
      menu order, or nothing when the operation lacks the axis and no box is
      shown. */
  function Offered(params: seq<Axis>, name: string): seq<string> {
    match AxisNamed(params, name)
    case None => []
    case Some(a) => Labels(a)
  }

  /** A label the user can actually pick for this axis: any string when no
      box is shown (the choice is then ignored), else one the box offers. */
  predicate Pickable(params: seq<Axis>, name: string, display: string) {
    AxisNamed(params, name).None? || display in Offered(params, name)
  }

  /** The selected wire value for one axis: none when the operation lacks the
      axis, the chosen label's wire value when it has it, and a lookup error
      when the label is not one of the axis's labels. */
  function ResolveAxis(params: seq<Axis>, name: string, display: string): (r: Result<Option<string>, Error>)
    ensures AxisNamed(params, name).None? ==> r == Success(None)
    ensures AxisNamed(params, name).Some? && display in Offered(params, name) ==>
              r.Success? && r.value.Some? && Choice(display, r.value.value) in AxisNamed(params, name).value.choices
    ensures AxisNamed(params, name).Some? && display !in Offered(params, name) ==>
              r == Failure(UnknownLabel(name, display))
  {
    match AxisNamed(params, name)
    case None => Success(None)
    case Some(a) =>
      match WireOf(a.choices, display)
      case None =>
        assert display !in Labels(a);
        Failure(UnknownLabel(name, display))
      case Some(w) =>
        assert display in Labels(a) by {
          var i :| 0 <= i < |a.choices| && a.choices[i] == Choice(display, w);
          assert Labels(a)[i] == display;
        }
        Success(Some(w))
  }

  /** A label is never missing from the axis that offered it: every offered
      label resolves, and to the value filed under it. */
  lemma {:induction false} OfferedLabelsResolve(params: seq<Axis>, name: string, i: nat)
    requires AxisNamed(params, name).Some?
    requires i < |AxisNamed(params, name).value.choices|
    requires Distinct(Labels(AxisNamed(params, name).value))
    ensures ResolveAxis(params, name, AxisNamed(params, name).value.choices[i].display)
            == Success(Some(AxisNamed(params, name).value.choices[i].wire))
  {
    var a := AxisNamed(params, name).value;
    forall p, q | 0 <= p < q < |a.choices|
      ensures a.choices[p].display != a.choices[q].display
    {
      assert Labels(a)[p] != Labels(a)[q];
    }
    WireOfDistinct(a.choices, i);
  }

  /** With distinct labels, looking up the label of choice i yields exactly the
      wire value of choice i. */
  lemma {:induction false} WireOfDistinct(choices: seq<Choice>, i: nat)
    requires i < |choices|
    requires forall p, q :: 0 <= p < q < |choices| ==> choices[p].display != choices[q].display
    ensures WireOf(choices, choices[i].display) == Some(choices[i].wire)
  {
    if i > 0 {
      assert choices[0].display != choices[i].display;
      WireOfDistinct(choices[1..], i - 1);
    }
  }

  /** The positional arguments of the remote call: the interval alone, the
      interval then the currency, or nothing. A currency without an interval
      is dropped. */
  function Arguments(interval: Option<string>, currency: Option<string>): (args: seq<string>)
    ensures interval.None? ==> args == []
    ensures interval.Some? ==> |args| >= 1 && args[0] == interval.value
    ensures |args| == 2 <==> interval.Some? && currency.Some?
    ensures |args| == 2 ==> args[1] == currency.value
    ensures |args| <= 2
  {
    if interval.Some? && currency.None? then [interval.value]
    else if interval.Some? && currency.Some? then [interval.value, currency.value]
    else []
  }

  /** One remote call: the method and its positional arguments. */
  datatype Call = Call(api: ApiMethod, args: seq<string>)

  /** The remote call for a menu entry and the labels picked in its boxes:
      the interval and currency values are resolved first, then the method is
      found by name and given the arguments the arity rule builds. */
  function Request(op: Operation, interval: string, currency: string): Result<Call, Error> {
    var iv :- ResolveAxis(op.params, IntervalAxis, interval);
    var cv :- ResolveAxis(op.params, CurrencyAxis, currency);
    match MethodNamed(op.value)
    case None => Failure(NoSuchAttribute(op.value))
    case Some(m) => Success(Call(m, Arguments(iv, cv)))
  }

  /** The label chosen for a parameter, by parameter name. */
  function Picked(name: string, interval: string, currency: string): string {
    if name == IntervalAxis then interval else currency
  }

  /** For a well-formed entry and labels its boxes offer, the request always
      succeeds and calls the entry's method with exactly one argument per
      declared parameter, in declaration order, each the wire value filed under
      the label chosen for that parameter. No argument is dropped or added. */
  lemma {:induction false} RequestMatchesSignature(op: Operation, interval: string, currency: string)
    requires WellFormedOperation(op)
    requires Pickable(op.params, IntervalAxis, interval)
    requires Pickable(op.params, CurrencyAxis, currency)
    ensures Request(op, interval, currency).Success?
    ensures var call := Request(op, interval, currency).value;
            && Some(call.api) == MethodNamed(op.value)
            && |call.args| == |Signature(call.api)|
            && forall j :: 0 <= j < |call.args| ==>
                 var name := Signature(call.api)[j];
                 Choice(Picked(name, interval, currency), call.args[j]) in AxisNamed(op.params, name).value.choices
  {
    var m := MethodNamed(op.value).value;
    SignatureShapes(m);
    AxisNamedFollowsSignature(op, IntervalAxis);
    AxisNamedFollowsSignature(op, CurrencyAxis);
    var iv := ResolveAxis(op.params, IntervalAxis, interval);
    var cv := ResolveAxis(op.params, CurrencyAxis, currency);
    assert iv.Success? && cv.Success?;
    var args := Arguments(iv.value, cv.value);
    assert Request(op, interval, currency) == Success(Call(m, args));
  }

  /** A well-formed entry has an axis of a given name exactly when its
      method declares a parameter of that name. */
  lemma {:induction false} AxisNamedFollowsSignature(op: Operation, name: string)
    requires WellFormedOperation(op)
    ensures AxisNamed(op.params, name).Some? <==> name in Signature(MethodNamed(op.value).value)
  {
    var r := AxisNamed(op.params, name);
    if r.Some? {
      var i :| 0 <= i < |op.params| && op.params[i] == r.value;
      assert AxisNames(op.params)[i] == name;
    }
  }

  /** No well-formed entry has a currency axis without an interval axis, so
      the arity rule never drops a chosen currency. */
  lemma CurrencyNeverDropped(op: Operation, interval: string, currency: string)
    requires WellFormedOperation(op)
    requires Pickable(op.params, IntervalAxis, interval)
    requires Pickable(op.params, CurrencyAxis, currency)
    ensures AxisNamed(op.params, CurrencyAxis).Some? ==> AxisNamed(op.params, IntervalAxis).Some?
    ensures AxisNamed(op.params, CurrencyAxis).Some? ==>
              |Request(op, interval, currency).value.args| == 2
  {
    var m := MethodNamed(op.value).value;
    SignatureShapes(m);
    AxisNamedFollowsSignature(op, IntervalAxis);
    AxisNamedFollowsSignature(op, CurrencyAxis);
    RequestMatchesSignature(op, interval, currency);
  }
}
