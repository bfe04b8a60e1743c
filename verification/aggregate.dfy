/**
 * Aggregate (absolute) measures and their measurements: positions rather than
 * intervals. A position plus or minus an interval of the derivative measure
 * is a position, and the difference of two positions is an interval. The
 * absolute view of a linear measure converts through whole ladders, so its
 * zero need not be the arbitrary zero.
 */
module Aggregates {
  import opened Base
  import opened Util
  import opened Linear
  import Derived
  import opened Algebra
  import opened Measurements

  /**
   * An aggregate measure: the absolute view of a linear measure
   * (`AggregateLinearMeasure`), or `BasicAggregateMeasure(derivative)` for any
   * other measure.
   */
  datatype Aggregate = AbsoluteOf(owner: LinearMeasure) | BasicAggregate(base: Measure) {

    /** `derivative()`: the measure of the intervals between positions (a linear measure's delta view). */
    function Derivative(): Measure {
      match this
      case AbsoluteOf(l) => Primitive(Derived.DeltaPrim(l))
      case BasicAggregate(m) => m
    }
  }

  /** A unit of an aggregate measure: a whole ladder, or a coefficient. */
  datatype Converter = LadderUnit(ladder: Ladder) | CoefUnit(coef: real) {

    /** `amount * unit`: a value in this unit, on the arbitrary scale (a ladder's `__rmul__` is `to_arb`). */
    function ToArb(v: real): real {
      match this
      case LadderUnit(l) => l.ToArb(v)
      case CoefUnit(c) => Mul(v, c)
    }

    /** `amount / unit`: an arbitrary-scale value in this unit (a ladder's `__rtruediv__` is `from_arb`). */
    function FromArb(v: real): (r: Result<real>)
      ensures r.Err? <==> (LadderUnit? && ladder.scale == 0.0) || (CoefUnit? && coef == 0.0)
      ensures r.Err? ==> r.error == ZeroDivision
      ensures r.Ok? ==> ToArb(r.value) == v
    {
      match this
      case LadderUnit(l) => l.FromArb(v)
      case CoefUnit(c) => if c == 0.0 then Err(ZeroDivision) else Ok(v / c)
    }
  }

  /** Reading a value back in the unit it was given in returns it. */
  lemma ConverterRoundTrip(u: Converter, v: real)
    requires !u.FromArb(0.0).Err?
    ensures u.FromArb(u.ToArb(v)) == Ok(v)
  {
    match u
    case LadderUnit(l) => ArbRoundTrip(l, v);
    case CoefUnit(c) => assert Mul(v, c) / c == v;
  }

  /**
   * `aggregate[item]`: the absolute view of a linear measure looks the name
   * up in the shared ladder table, with no amount split, and returns the
   * whole ladder; any other aggregate returns its derivative's coefficient.
   */
  function UnitOf(agg: Aggregate, item: Arg): (r: Result<Converter>)
    reads Tables(agg.Derivative())
    ensures agg.AbsoluteOf? && item.Text? ==>
      && (r.Ok? <==> agg.owner.Get(item.text).Ok?)
      && (r.Ok? ==> r.value == LadderUnit(agg.owner.Get(item.text).value))
    ensures agg.AbsoluteOf? && !item.Text? ==> r.Err?
    ensures agg.BasicAggregate? ==>
      && (r.Ok? <==> Coefficient(agg.base, item).Ok?)
      && (r.Ok? ==> r.value == CoefUnit(Coefficient(agg.base, item).value))
  {
    match agg
    case AbsoluteOf(l) =>
      (match item
       case Text(s) =>
         (match l.Get(s)
          case Ok(ladder) => Ok(LadderUnit(ladder))
          case Err(e) => Err(e))
       case Num(x) => Err(NumberKeyError(x))
       case Meas(_) => Err(MeasurementKeyError))
    case BasicAggregate(m) =>
      match Coefficient(m, item)
      case Ok(c) => Ok(CoefUnit(c))
      case Err(e) => Err(e)
  }

  /**
   * The two views of a linear measure read one ladder table: for a name with
   * no leading amount, the delta view's coefficient is the scale of the
   * ladder the absolute view returns.
   */
  lemma ViewsShareLadders(l: LinearMeasure, name: string)
    requires !HasAmount(name)
    ensures UnitOf(AbsoluteOf(l), Text(name)).Ok? <==> Coefficient(Primitive(Derived.DeltaPrim(l)), Text(name)).Ok?
    ensures UnitOf(AbsoluteOf(l), Text(name)).Ok? ==>
      Coefficient(Primitive(Derived.DeltaPrim(l)), Text(name)) == Ok(UnitOf(AbsoluteOf(l), Text(name)).value.ladder.scale)
  {
  }

  /** `measure.aggregate()`: a linear measure's delta view aggregates to its absolute view, any other measure to a basic aggregate. */
  function AggregateOf(m: Measure): (agg: Aggregate)
    ensures agg.Derivative() == m
    ensures agg.AbsoluteOf? <==> m.Primitive? && m.prim.DeltaPrim?
  {
    if m.Primitive? && m.prim.DeltaPrim? then AbsoluteOf(m.prim.linear) else BasicAggregate(m)
  }

  /** An absolute measurement: an amount on the arbitrary scale, and the aggregate measure it belongs to. */
  datatype AbsMeasurement = AbsMeasurement(amount: real, owner: Aggregate)

  /** `amount *= self[unit]`, then the measurement of the converted amount. */
  function Place(agg: Aggregate, unit: Arg, amount: Amount): (r: Result<AbsMeasurement>)
    reads Tables(agg.Derivative())
    ensures var u := UnitOf(agg, unit);
      && (r.Ok? <==> amount.Count? && u.Ok?)
      && (r.Ok? ==> r.value == AbsMeasurement(u.value.ToArb(amount.count), agg))
      && (u.Err? ==> r == Err(u.error))
  {
    match UnitOf(agg, unit)
    case Err(e) => Err(e)
    case Ok(c) =>
      if amount.Spelled? then Err(TypeError("can't multiply sequence by non-int of type 'float'"))
      else Ok(AbsMeasurement(c.ToArb(amount.count), agg))
  }

  /**
   * `aggregate(unit, amount=None)`: with no amount, the unit string must
   * carry one ("25 C"), else `ValueError('amount must be specified')`; a
   * number given first and a unit string second are swapped.
   */
  function Position(agg: Aggregate, unit: Arg, amount: Option<Amount>): (r: Result<AbsMeasurement>)
    reads Tables(agg.Derivative())
    ensures r.Ok? ==> r.value.owner == agg
    ensures amount.None? && !unit.Text? ==> r.Err? && r.error.TypeError?
    ensures amount.None? && unit.Text? && !HasAmount(unit.text) ==> r == Err(AmountRequired)
  {
    if amount.None? then
      if !unit.Text? then Err(TypeError("expected string or bytes-like object"))
      else
        match SplitAmountArgs(unit.text, None)
        case Err(e) => Err(e)
        case Ok((f, rest)) =>
          if f.None? then Err(AmountRequired)
          else Place(agg, Text(rest), Count(f.value))
    else if unit.Num? && amount.value.Spelled? then
      Place(agg, Text(amount.value.spelled), Count(unit.number))
    else
      Place(agg, unit, amount.value)
  }

  /**
   * The three spellings of one point agree: `aggregate("25 C")`,
   * `aggregate("C", 25)` and `aggregate(25, "C")`.
   */
  lemma PositionSpellings(agg: Aggregate, text: string, x: real, unit: string)
    requires SplitAmountArgs(text, None) == Ok((Some(x), unit))
    ensures Position(agg, Text(text), None) == Position(agg, Text(unit), Some(Count(x)))
    ensures Position(agg, Num(x), Some(Spelled(unit))) == Position(agg, Text(unit), Some(Count(x)))
  {
    var placed := Place(agg, Text(unit), Count(x));
    assert Position(agg, Text(unit), Some(Count(x))) == placed;
    assert Position(agg, Num(x), Some(Spelled(unit))) == placed;
    assert Position(agg, Text(text), None) == placed;
  }

  /** `point[item]`: `amount / aggregate[item]`, which for a ladder is `from_arb`. */
  function Reading(x: AbsMeasurement, item: Arg): (r: Result<real>)
    reads Tables(x.owner.Derivative())
    ensures var u := UnitOf(x.owner, item);
      && (r.Ok? <==> u.Ok? && u.value.FromArb(0.0).Ok?)
      && (r.Ok? ==> u.value.ToArb(r.value) == x.amount)
  {
    match UnitOf(x.owner, item)
    case Err(e) => Err(e)
    case Ok(u) => u.FromArb(x.amount)
  }

  /** A point made from an amount in a unit reads that amount back in the same unit. */
  lemma PositionReading(agg: Aggregate, unit: Arg, v: real)
    requires UnitOf(agg, unit).Ok? && UnitOf(agg, unit).value.FromArb(0.0).Ok?
    ensures Position(agg, unit, Some(Count(v))).Ok?
    ensures Reading(Position(agg, unit, Some(Count(v))).value, unit) == Ok(v)
  {
    var u := UnitOf(agg, unit).value;
    ConverterRoundTrip(u, v);
  }

  /** The right-hand operand of an operation on a point: another point, or anything a measurement accepts. */
  datatype Operand = OfPoint(point: AbsMeasurement) | OfArg(arg: Arg)

  /** The objects that reading an operand's own measurement involves. */
  function OperandTables(v: Operand): set<object>
    reads if v.OfArg? && v.arg.Meas? then v.arg.measurement.measure.Objs() else {}
  {
    if v.OfArg? && v.arg.Meas? then Tables(v.arg.measurement.measure) else {}
  }

  /**
   * `_coalesce_to_delta(v)`: the interval an operand stands for. A
   * measurement of the derivative stands for itself, a string or a zero for
   * `derivative()(v)`; anything else, a point included, for none.
   */
  function ToDelta(x: AbsMeasurement, v: Operand): (r: Result<Option<Measurement>>)
    reads Tables(x.owner.Derivative())
    ensures v.OfPoint? ==> r == Ok(None)
    ensures v.OfArg? && v.arg.Meas? ==>
      r == Ok(if v.arg.measurement.measure == x.owner.Derivative() then Some(v.arg.measurement) else None)
    ensures v.OfArg? && v.arg.Num? && v.arg.number != 0.0 ==> r == Ok(None)
    ensures v.OfArg? && !v.arg.Meas? && (v.arg.Text? || v.arg.number == 0.0) ==> r == OneOf(x.owner.Derivative(), v.arg)
    ensures r.Ok? && r.value.Some? ==> r.value.value.measure == x.owner.Derivative()
  {
    match v
    case OfPoint(_) => Ok(None)
    case OfArg(a) =>
      match a
      case Meas(y) => if y.measure != x.owner.Derivative() then Ok(None) else Ok(Some(y))
      case Num(n) => if n != 0.0 then Ok(None) else OneOf(x.owner.Derivative(), a)
      case Text(_) => OneOf(x.owner.Derivative(), a)
  }

  /**
   * `_coalesce_to_absolute(v)`: the point an operand stands for. A point of
   * the same aggregate stands for itself, a string for `aggregate(v)`; a
   * number or measurement equal to zero also goes to `aggregate(v)`, which
   * has no amount to split and raises; anything else stands for none.
   */
  function ToPoint(x: AbsMeasurement, v: Operand): (r: Result<Option<AbsMeasurement>>)
    reads Tables(x.owner.Derivative()), OperandTables(v)
    ensures v.OfPoint? ==> r == Ok(if v.point.owner == x.owner then Some(v.point) else None)
    ensures v.OfArg? && v.arg.Text? ==> var p := Position(x.owner, v.arg, None);
      && (r.Ok? <==> p.Ok?)
      && (r.Ok? ==> r.value == Some(p.value))
    ensures v.OfArg? && v.arg.Num? ==> if v.arg.number == 0.0 then r.Err? else r == Ok(None)
    ensures v.OfArg? && v.arg.Meas? ==> (r.Ok? <==> Equals(v.arg.measurement, Num(0.0)) == Ok(false))
    ensures r.Ok? && r.value.Some? ==> r.value.value.owner == x.owner
  {
    match v
    case OfPoint(p) => if p.owner != x.owner then Ok(None) else Ok(Some(p))
    case OfArg(a) =>
      if a.Num? && a.number != 0.0 then Ok(None)
      else
        var zero := if a.Meas? then Equals(a.measurement, Num(0.0)) else Ok(true);
        if zero.Err? then Err(zero.error)
        else if !zero.value then Ok(None)
        else
          var p := Position(x.owner, a, None);
          if p.Err? then Err(p.error) else Ok(Some(p.value))
  }

  /**
   * `point + interval`: a point moved along the arbitrary scale. Only this
   * order is supported: `interval + point` goes to the interval's `__add__`,
   * whose test `point == 0` raises TypeError before `__radd__` is tried.
   */
  function Add(x: AbsMeasurement, v: Operand): (r: Result<AbsMeasurement>)
    reads Tables(x.owner.Derivative())
    ensures var d := ToDelta(x, v);
      && (r.Ok? <==> d.Ok? && d.value.Some?)
      && (r.Ok? ==> r.value == AbsMeasurement(x.amount + d.value.value.amount, x.owner))
    ensures v.OfPoint? ==> r == Err(Unsupported)
  {
    match ToDelta(x, v)
    case Err(e) => Err(e)
    case Ok(None) => Err(Unsupported)
    case Ok(Some(d)) => Ok(AbsMeasurement(x.amount + d.amount, x.owner))
  }

  /**
   * `derivative()(None, amount)`: the interval of that many arbitrary units,
   * a plain measurement unless the derivative is dynamic.
   */
  function Interval(m: Measure, amount: real): (r: Value)
    reads Tables(m)
    ensures r.MeasureOf() == m && r.AmountOf() == amount
    ensures r.Measured? ==> (r.measurement.kind.Plain? <==> !IsDynamic(m))
  {
    Measurements.Call(m, None, Count(amount)).value
  }

  /** The result of `point - other`: a moved point, or the interval between two points. */
  datatype Difference = Moved(point: AbsMeasurement) | Apart(delta: Value)

  /**
   * `point - other`: an operand that stands for an interval moves the point
   * back (a string always counts as an interval); one that stands for a
   * point of the same aggregate gives the interval `derivative()(None, arb)`.
   */
  function Sub(x: AbsMeasurement, v: Operand): (r: Result<Difference>)
    reads Tables(x.owner.Derivative()), OperandTables(v)
    ensures var d := ToDelta(x, v);
      d.Ok? && d.value.Some? ==> r == Ok(Moved(AbsMeasurement(x.amount - d.value.value.amount, x.owner)))
    ensures v.OfArg? && v.arg.Text? ==> r.Ok? ==> r.value.Moved?
    ensures v.OfPoint? && v.point.owner != x.owner ==> r == Err(Unsupported)
    ensures v.OfPoint? && v.point.owner == x.owner ==>
      r == Ok(Apart(Interval(x.owner.Derivative(), x.amount - v.point.amount)))
    ensures r.Ok? && r.value.Apart? ==> r.value.delta.MeasureOf() == x.owner.Derivative()
  {
    match ToDelta(x, v)
    case Err(e) => Err(e)
    case Ok(Some(d)) => Ok(Moved(AbsMeasurement(x.amount - d.amount, x.owner)))
    case Ok(None) => Between(x, v)
  }

  /**
   * `point - other` for an operand that stands for no interval: the interval
   * from the point it stands for, if it stands for one of this aggregate.
   */
  function Between(x: AbsMeasurement, v: Operand): (r: Result<Difference>)
    reads Tables(x.owner.Derivative()), OperandTables(v)
    ensures var p := ToPoint(x, v);
      && (r.Ok? <==> p.Ok? && p.value.Some?)
      && (r.Ok? ==> r == Ok(Apart(Interval(x.owner.Derivative(), x.amount - p.value.value.amount))))
    ensures r.Ok? ==> r.value.Apart? && r.value.delta.MeasureOf() == x.owner.Derivative()
  {
    match ToPoint(x, v)
    case Err(e) => Err(e)
    case Ok(None) => Err(Unsupported)
    case Ok(Some(p)) => Ok(Apart(Interval(x.owner.Derivative(), x.amount - p.amount)))
  }

  /** Moving a point by an interval and back by the same interval returns the point. */
  lemma AddSubDelta(x: AbsMeasurement, d: Measurement)
    requires d.measure == x.owner.Derivative()
    ensures Add(x, OfArg(Meas(d))).Ok?
    ensures Sub(Add(x, OfArg(Meas(d))).value, OfArg(Meas(d))) == Ok(Moved(x))
  {
    var y := Add(x, OfArg(Meas(d))).value;
    assert y.amount - d.amount == x.amount;
  }

  /** The interval between two points, added to the second, gives the first. */
  lemma SubAddPoints(x: AbsMeasurement, y: AbsMeasurement)
    requires x.owner == y.owner && !x.owner.Derivative().Scalar? && !IsDynamic(x.owner.Derivative())
    ensures Sub(x, OfPoint(y)).Ok? && Sub(x, OfPoint(y)).value.Apart? && Sub(x, OfPoint(y)).value.delta.Measured?
    ensures Add(y, OfArg(Meas(Sub(x, OfPoint(y)).value.delta.measurement))) == Ok(x)
  {
    var d := Sub(x, OfPoint(y)).value.delta;
    assert d == Measured(Measurement(x.amount - y.amount, x.owner.Derivative(), Plain));
    assert y.amount + (x.amount - y.amount) == x.amount;
  }

  /**
   * `point == other` as written: it reads `other.owner`, an attribute an
   * absolute measurement does not have (it keeps its aggregate in
   * `measure`), so comparing with any point of the same aggregate raises.
   * An operand that coerces to no point makes Python's `other and …` return
   * `None`, which is answered here as `false`.
   */
  function EqAsWritten(x: AbsMeasurement, v: Operand): (r: Result<bool>)
    reads Tables(x.owner.Derivative()), OperandTables(v)
    ensures var p := ToPoint(x, v);
      && (p.Ok? && p.value.Some? ==> r == Err(MissingAttribute("owner")))
      && (p == Ok(None) ==> r == Ok(false))
  {
    match ToPoint(x, v)
    case Err(e) => Err(e)
    case Ok(None) => Ok(false)
    case Ok(Some(_)) => Err(MissingAttribute("owner"))
  }

  /**
   * `point == other` as intended: the same aggregate and the same amount.
   * An operand that coerces to no point gives `false`, where Python's
   * `other and …` gives `None`.
   */
  function Eq(x: AbsMeasurement, v: Operand): (r: Result<bool>)
    reads Tables(x.owner.Derivative()), OperandTables(v)
    ensures v.OfPoint? ==> r == Ok(v.point == x)
    ensures var p := ToPoint(x, v);
      && (r.Ok? <==> p.Ok?)
      && (r.Ok? ==> (r.value <==> p.value == Some(x)))
  {
    match ToPoint(x, v)
    case Err(e) => Err(e)
    case Ok(None) => Ok(false)
    case Ok(Some(p)) => Ok(p.owner == x.owner && p.amount == x.amount)
  }

  /** A point is not equal to itself as written; as intended it is. */
  lemma EqReflexive(x: AbsMeasurement)
    ensures EqAsWritten(x, OfPoint(x)) == Err(MissingAttribute("owner"))
    ensures Eq(x, OfPoint(x)) == Ok(true)
  {
  }

  /**
   * `round(point, interval)`: the nearest whole number of intervals from the
   * arbitrary zero; an operand that is no interval raises a `TypeError`.
   */
  function Round(x: AbsMeasurement, v: Operand, round: real -> int): (r: Result<AbsMeasurement>)
    reads Tables(x.owner.Derivative())
    ensures ToDelta(x, v) == Ok(None) ==> r == Err(TypeError("can't handle precision of type"))
    ensures var d := ToDelta(x, v);
      d.Ok? && d.value.Some? ==>
        && (r.Ok? <==> d.value.value.amount != 0.0)
        && (r.Ok? ==> r.value.owner == x.owner && Whole(r.value.amount / d.value.value.amount))
  {
    match ToDelta(x, v)
    case Err(e) => Err(e)
    case Ok(None) => Err(TypeError("can't handle precision of type"))
    case Ok(Some(d)) =>
      if d.amount == 0.0 then Err(ZeroDivision)
      else
        var n := round(x.amount / d.amount);
        MultipleIsWhole(d.amount, n);
        Ok(AbsMeasurement(Mul(d.amount, n as real), x.owner))
  }

  /** `point < other` and the rest: amounts on the arbitrary scale compared. */
  function Compare(x: AbsMeasurement, v: Operand, o: Order): (r: Result<bool>)
    reads Tables(x.owner.Derivative()), OperandTables(v)
    ensures var p := ToPoint(x, v);
      && (r.Ok? <==> p.Ok? && p.value.Some?)
      && (r.Ok? ==> r.value == Holds(o, x.amount, p.value.value.amount))
    ensures v.OfPoint? && v.point.owner != x.owner ==> r == Err(Unsupported)
  {
    match ToPoint(x, v)
    case Err(e) => Err(e)
    case Ok(None) => Err(Unsupported)
    case Ok(Some(p)) => Ok(Holds(o, x.amount, p.amount))
  }

  /** Two points of one aggregate compare the same way from either side. */
  lemma ComparePoints(x: AbsMeasurement, y: AbsMeasurement, o: Order)
    requires x.owner == y.owner
    ensures Compare(x, OfPoint(y), o) == Ok(Holds(o, x.amount, y.amount))
    ensures Compare(x, OfPoint(y), o) == Compare(y, OfPoint(x), Flip(o))
  {
  }
}
