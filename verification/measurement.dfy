/**
 * Measurements: an amount of a measure, held in the measure's arbitrary unit.
 * Arithmetic with a number keeps the measure, arithmetic with another
 * measurement combines the measures, and `+`, `-`, rounding and the orderings
 * demand the same measure. A measurement of the scalar measure is the bare
 * number. A measurement of a dynamic measure keeps the unit it was created in,
 * unresolved, and reads the measure's live table whenever it is converted.
 */
module Measurements {
  import opened Base
  import opened Util
  import opened Basic
  import opened Linear
  import opened Derived
  import opened Algebra

  /** A key of `measure[key]`, or a unit argument: a unit string, a number, or a measurement. */
  datatype Arg = Text(text: string) | Num(number: real) | Meas(measurement: Measurement)

  /** The amount argument of `measure(unit, amount)`: a number, or a unit string given in second place. */
  datatype Amount = Count(count: real) | Spelled(spelled: string)

  /**
   * A plain `Measurement`, or a `DynamicMeasurement` with the unit it was
   * created in (None for Python's None).
   */
  datatype Kind = Plain | Dynamic(unit: Option<Arg>)

  datatype Measurement = Measurement(amount: real, measure: Measure, kind: Kind)

  /** What an expression that builds a measurement evaluates to: a measurement, or the bare amount. */
  datatype Value = Bare(number: real) | Measured(measurement: Measurement) {

    function AmountOf(): real {
      if Bare? then number else measurement.amount
    }

    /** The measure of the value; a bare number is a quantity of the scalar measure. */
    function MeasureOf(): Measure {
      if Bare? then Scalar else measurement.measure
    }
  }

  /** `Measurement(amount, measure)`: `__new__` hands back the bare amount for the scalar measure. */
  function Make(amount: real, measure: Measure): (v: Value)
    ensures v.Bare? <==> measure.Scalar?
    ensures v.AmountOf() == amount && v.MeasureOf() == measure
    ensures v.Measured? ==> v.measurement.kind == Plain
  {
    if measure.Scalar? then Bare(amount) else Measured(Measurement(amount, measure, Plain))
  }

  /** Whether a measure is a `DynamicMeasure`. */
  predicate IsDynamic(m: Measure) {
    m.Primitive? && m.prim.BasicPrim? && m.prim.basic.dynamic
  }

  /** The objects whose fields `measure[key]` reads. */
  function Tables(m: Measure): set<object>
    reads m.Objs()
  {
    match m
    case Scalar => {}
    case Primitive(p) => {p.Obj()}
    case Compound(d) => {d} + d.Objects()
  }

  /** `measure[name]` for a unit string, on each kind of measure. */
  function NameCoefficient(m: Measure, name: string): (r: Result<real>)
    reads Tables(m)
    ensures m.Scalar? ==> r == Err(KeyError(name))
  {
    match m
    case Scalar => Err(KeyError(name))
    case Primitive(BasicPrim(b)) => b.Get(name)
    case Primitive(DeltaPrim(l)) => l.DeltaScale(name)
    case Compound(d) => d.GetSpec(name, MaxDepth)
  }

  /**
   * `measure[key]`: a measurement of this very measure stands for its own
   * amount, one of another measure is refused, a number is no unit name
   * (the amount split of a textual table rejects it as a TypeError, the
   * ladder table of a delta view as a missing key), and the scalar measure
   * has no keys at all.
   */
  function Coefficient(m: Measure, key: Arg): (r: Result<real>)
    reads Tables(m)
    ensures m.Scalar? ==> r.Err?
    ensures key.Meas? && !m.Scalar? ==> (r.Ok? <==> key.measurement.measure == m)
    ensures key.Meas? && !m.Scalar? && r.Err? ==> r.error == ForeignMeasurement
    ensures key.Meas? && r.Ok? ==> r.value == key.measurement.amount
    ensures key.Num? ==> r.Err?
  {
    match key
    case Meas(y) =>
      if m.Scalar? then Err(MeasurementKeyError)
      else if y.measure != m then Err(ForeignMeasurement)
      else Ok(y.amount)
    case Num(x) =>
      if m.Scalar? || (m.Primitive? && m.prim.DeltaPrim?) then Err(NumberKeyError(x))
      else Err(TypeError("expected string or bytes-like object"))
    case Text(s) => NameCoefficient(m, s)
  }

  /** `measure(number, "unit")` is read as `measure("unit", number)`. */
  function Swap(unit: Option<Arg>, amount: Amount): (Option<Arg>, Amount) {
    if unit.Some? && unit.value.Num? && amount.Spelled? then (Some(Text(amount.spelled)), Count(unit.value.number))
    else (unit, amount)
  }

  /** The amount a call keeps unconverted (no unit, or a dynamic measure) is a number. */
  predicate StoresNumber(m: Measure, unit: Option<Arg>, amount: Amount) {
    var (u, a) := Swap(unit, amount);
    (u.None? || IsDynamic(m)) ==> a.Count?
  }

  /**
   * `amount *= self[unit]` in `measure(unit, amount)`: the amount times the
   * unit's coefficient, which is the amount in the measure's arbitrary unit.
   * A unit string in place of the amount is a TypeError here, as Python
   * raises for a float coefficient; with an int coefficient Python repeats
   * the string instead, which the model does not follow.
   */
  function Convert(m: Measure, unit: Arg, amount: Amount): (r: Result<Value>)
    reads Tables(m)
    ensures var c := Coefficient(m, unit);
      && (r.Ok? <==> amount.Count? && c.Ok?)
      && (r.Ok? ==> r.value.MeasureOf() == m && r.value.AmountOf() == Mul(amount.count, c.value))
      && (r.Ok? ==> (r.value.Bare? <==> m.Scalar?))
      && (r.Ok? && r.value.Measured? ==> r.value.measurement.kind == Plain)
      && (c.Err? ==> r == Err(c.error))
  {
    match Coefficient(m, unit)
    case Err(e) => Err(e)
    case Ok(c) =>
      if amount.Spelled? then Err(TypeError("can't multiply sequence by non-int of type 'float'"))
      else Ok(Make(Mul(amount.count, c), m))
  }

  /**
   * `measure(unit, amount=1)`: with a unit, the converted amount; with None,
   * the amount as it is. A dynamic measure instead keeps the amount and the
   * unit as given.
   */
  function Call(m: Measure, unit: Option<Arg>, amount: Amount): (r: Result<Value>)
    requires StoresNumber(m, unit, amount)
    reads Tables(m)
    ensures IsDynamic(m) ==> r == Ok(Measured(Measurement(Swap(unit, amount).1.count, m, Dynamic(Swap(unit, amount).0))))
    ensures !IsDynamic(m) && Swap(unit, amount).0.None? ==> r == Ok(Make(Swap(unit, amount).1.count, m))
    ensures !IsDynamic(m) && Swap(unit, amount).0.Some? ==> r == Convert(m, Swap(unit, amount).0.value, Swap(unit, amount).1)
  {
    var (u, a) := Swap(unit, amount);
    if IsDynamic(m) then Ok(Measured(Measurement(a.count, m, Dynamic(u))))
    else if u.None? then Ok(Make(a.count, m))
    else Convert(m, u.value, a)
  }

  /** `measure(number, "unit") == measure("unit", number)` */
  lemma CallSwapped(m: Measure, x: real, unit: string)
    ensures Call(m, Some(Num(x)), Spelled(unit)) == Call(m, Some(Text(unit)), Count(x))
  {
    assert Swap(Some(Num(x)), Spelled(unit)) == Swap(Some(Text(unit)), Count(x));
  }

  // ---------------------------------------------------------------------------
  // Arithmetic with numbers, and with measurements of the same measure
  // ---------------------------------------------------------------------------

  /**
   * `type(self)(amount, measure)`: a new measurement of the same class. A
   * `DynamicMeasurement` cannot be rebuilt this way, since its `__new__`
   * also wants the unit.
   */
  function Rebuild(x: Measurement, amount: real, measure: Measure): (r: Result<Value>)
    ensures r.Ok? <==> x.kind.Plain?
    ensures r.Ok? ==> r.value.AmountOf() == amount && r.value.MeasureOf() == measure
    ensures r.Ok? ==> (r.value.Bare? <==> measure.Scalar?)
    ensures r.Err? ==> r.error.TypeError?
  {
    if x.kind.Plain? then Ok(Make(amount, measure))
    else Err(TypeError("__new__() missing 1 required positional argument: 'measure'"))
  }

  /** `self * number` and `number * self`: the measure stays. */
  function Scale(x: Measurement, k: real): (r: Result<Value>)
    ensures r.Ok? <==> x.kind.Plain?
    ensures r.Ok? ==> r.value.MeasureOf() == x.measure && r.value.AmountOf() == Mul(x.amount, k)
  {
    Rebuild(x, Mul(x.amount, k), x.measure)
  }

  /** `self / number`: the measure stays; a zero divisor raises first. */
  function Shrink(x: Measurement, k: real): (r: Result<Value>)
    ensures r.Ok? <==> x.kind.Plain? && k != 0.0
    ensures k == 0.0 ==> r == Err(ZeroDivision)
    ensures r.Ok? ==> r.value.MeasureOf() == x.measure && Mul(r.value.AmountOf(), k) == x.amount
  {
    if k == 0.0 then Err(ZeroDivision) else Rebuild(x, x.amount / k, x.measure)
  }

  /** Dividing by the number a measurement was multiplied by gives it back. */
  lemma ScaleShrink(x: Measurement, k: real)
    requires x.kind.Plain? && !x.measure.Scalar? && k != 0.0
    ensures Scale(x, k).Ok? && Scale(x, k).value.Measured?
    ensures Shrink(Scale(x, k).value.measurement, k) == Ok(Measured(x))
  {
    var y := Scale(x, k).value.measurement;
    assert y.amount / k == x.amount;
  }

  /** `-self` */
  function Negate(x: Measurement): (r: Result<Value>)
    ensures r.Ok? <==> x.kind.Plain?
    ensures r.Ok? ==> r.value.MeasureOf() == x.measure && r.value.AmountOf() == -x.amount
  {
    Rebuild(x, -x.amount, x.measure)
  }

  /** `abs(self)` */
  function Absolute(x: Measurement): (r: Result<Value>)
    ensures r.Ok? <==> x.kind.Plain?
    ensures r.Ok? ==> r.value.MeasureOf() == x.measure && r.value.AmountOf() >= 0.0
    ensures r.Ok? ==> r.value.AmountOf() == x.amount || r.value.AmountOf() == -x.amount
  {
    Rebuild(x, if x.amount < 0.0 then -x.amount else x.amount, x.measure)
  }

  /** `measure(v)`: a measurement of one `v`, as `_coalesce` makes it from a string or a zero. */
  function OneOf(m: Measure, v: Arg): (r: Result<Option<Measurement>>)
    reads Tables(m)
    ensures r.Ok? ==> r.value.Some? && r.value.value.measure == m
    ensures !IsDynamic(m) ==> (r.Ok? <==> Coefficient(m, v).Ok?)
    ensures !IsDynamic(m) && r.Ok? ==> r.value.value == Measurement(Coefficient(m, v).value, m, Plain)
  {
    var c := Call(m, Some(v), Count(1.0));
    if c.Err? then Err(c.error) else Ok(Some(c.value.measurement))
  }

  /**
   * `_coalesce(v, check_measure)`: the measurement an operand stands for. A
   * measurement stands for itself (for none when the measures differ and
   * they are checked), a string or a zero for `measure(v)`, and any other
   * number for none.
   */
  function Coalesce(x: Measurement, v: Arg, check: bool): (r: Result<Option<Measurement>>)
    reads Tables(x.measure)
    ensures v.Meas? ==> r == Ok(if check && v.measurement.measure != x.measure then None else Some(v.measurement))
    ensures v.Num? && v.number != 0.0 ==> r == Ok(None)
    ensures v.Text? && r.Ok? ==> r.value.Some? && r.value.value.measure == x.measure
  {
    match v
    case Meas(y) => if check && y.measure != x.measure then Ok(None) else Ok(Some(y))
    case Num(n) => if n != 0.0 then Ok(None) else OneOf(x.measure, v)
    case Text(_) => OneOf(x.measure, v)
  }

  /** `self + other` (and `other + self`): amounts add within one measure. */
  function Add(x: Measurement, v: Arg): (r: Result<Value>)
    reads Tables(x.measure)
    ensures v.Meas? && v.measurement.measure != x.measure ==> r == Err(Unsupported)
    ensures v.Num? && v.number != 0.0 ==> r == Err(Unsupported)
    ensures v.Meas? && v.measurement.measure == x.measure ==>
      && (r.Ok? <==> x.kind.Plain?)
      && (r.Ok? ==> r.value.MeasureOf() == x.measure && r.value.AmountOf() == x.amount + v.measurement.amount)
  {
    match Coalesce(x, v, true)
    case Err(e) => Err(e)
    case Ok(None) => Err(Unsupported)
    case Ok(Some(y)) => Rebuild(x, x.amount + y.amount, x.measure)
  }

  /** `self - other`: amounts subtract within one measure. */
  function Sub(x: Measurement, v: Arg): (r: Result<Value>)
    reads Tables(x.measure)
    ensures v.Meas? && v.measurement.measure != x.measure ==> r == Err(Unsupported)
    ensures v.Num? && v.number != 0.0 ==> r == Err(Unsupported)
    ensures v.Meas? && v.measurement.measure == x.measure ==>
      && (r.Ok? <==> x.kind.Plain?)
      && (r.Ok? ==> r.value.MeasureOf() == x.measure && r.value.AmountOf() == x.amount - v.measurement.amount)
  {
    match Coalesce(x, v, true)
    case Err(e) => Err(e)
    case Ok(None) => Err(Unsupported)
    case Ok(Some(y)) => Rebuild(x, x.amount - y.amount, x.measure)
  }

  /** `other - self`, which the source computes as `-(self - other)`. */
  function SubFrom(x: Measurement, v: Arg): (r: Result<Value>)
    reads Tables(x.measure)
    ensures v.Meas? && v.measurement.measure == x.measure && !x.measure.Scalar? ==>
      && (r.Ok? <==> x.kind.Plain?)
      && (r.Ok? ==> r.value.MeasureOf() == x.measure && r.value.AmountOf() == v.measurement.amount - x.amount)
  {
    match Sub(x, v)
    case Err(e) => Err(e)
    case Ok(Bare(n)) => Ok(Bare(-n))
    case Ok(Measured(y)) => Negate(y)
  }

  /** Adding a measurement and subtracting it again gives the first one back. */
  lemma AddSub(x: Measurement, y: Measurement)
    requires x.kind.Plain? && !x.measure.Scalar? && y.measure == x.measure
    ensures Add(x, Meas(y)).Ok? && Add(x, Meas(y)).value.Measured?
    ensures Sub(Add(x, Meas(y)).value.measurement, Meas(y)) == Ok(Measured(x))
  {
    var s := Add(x, Meas(y)).value.measurement;
    assert s == Measurement(x.amount + y.amount, x.measure, Plain);
    assert Sub(s, Meas(y)) == Ok(Make(x.amount + y.amount - y.amount, x.measure));
  }

  /**
   * `self == other`: the same measure and the same amount; the measures are
   * not checked before that. An operand that stands for no measurement falls
   * back to identity, which a measurement and a number never share.
   */
  function Equals(x: Measurement, v: Arg): (r: Result<bool>)
    reads Tables(x.measure)
    ensures v.Meas? ==> r == Ok(v.measurement.measure == x.measure && v.measurement.amount == x.amount)
    ensures v.Num? && v.number != 0.0 ==> r == Ok(false)
    ensures v.Text? && !IsDynamic(x.measure) && Coefficient(x.measure, v).Ok? ==>
      r == Ok(x.amount == Coefficient(x.measure, v).value)
  {
    match Coalesce(x, v, false)
    case Err(e) => Err(e)
    case Ok(None) => Ok(false)
    case Ok(Some(y)) => Ok(x.measure == y.measure && x.amount == y.amount)
  }

  /** The four orderings. */
  datatype Order = Below | AtMost | Above | AtLeast

  function Holds(o: Order, a: real, b: real): bool {
    match o
    case Below => a < b
    case AtMost => a <= b
    case Above => a > b
    case AtLeast => a >= b
  }

  /** The ordering seen from the other operand. */
  function Flip(o: Order): Order {
    match o
    case Below => Above
    case AtMost => AtLeast
    case Above => Below
    case AtLeast => AtMost
  }

  /** `self < other` and the rest: raw amounts compared within one measure. */
  function Compare(x: Measurement, v: Arg, o: Order): (r: Result<bool>)
    reads Tables(x.measure)
    ensures v.Meas? && v.measurement.measure != x.measure ==> r == Err(Unsupported)
    ensures v.Meas? && v.measurement.measure == x.measure ==> r.Ok?
    ensures v.Num? && v.number != 0.0 ==> r == Err(Unsupported)
  {
    match Coalesce(x, v, true)
    case Err(e) => Err(e)
    case Ok(None) => Err(Unsupported)
    case Ok(Some(y)) => Ok(Holds(o, x.amount, y.amount))
  }

  /** Within one measure the orderings agree with those of the amounts, from either side. */
  lemma CompareAmounts(x: Measurement, y: Measurement, o: Order)
    requires x.measure == y.measure
    ensures Compare(x, Meas(y), o) == Ok(Holds(o, x.amount, y.amount))
    ensures Compare(x, Meas(y), o) == Compare(y, Meas(x), Flip(o))
  {
  }

  /** A whole number, as a real. */
  predicate Whole(x: real) {
    x.Floor as real == x
  }

  /** A whole number of `a`s is a whole number of `a`s. */
  lemma MultipleIsWhole(a: real, n: int)
    requires a != 0.0
    ensures Whole(Mul(a, n as real) / a)
  {
    assert Mul(a, n as real) / a == n as real;
  }

  /**
   * `round(self, unit)`: the nearest whole number of `unit`s, kept in this
   * measure; `round` is the interpreter's rounding of a number.
   */
  function Round(x: Measurement, v: Arg, round: real -> int): (r: Result<Value>)
    reads Tables(x.measure)
    ensures v.Meas? && v.measurement.measure != x.measure ==> r == Err(Unsupported)
    ensures v.Meas? && v.measurement.measure == x.measure ==>
      && (r.Ok? <==> x.kind.Plain? && v.measurement.amount != 0.0)
      && (r.Ok? ==> r.value.MeasureOf() == x.measure && Whole(r.value.AmountOf() / v.measurement.amount))
  {
    match Coalesce(x, v, true)
    case Err(e) => Err(e)
    case Ok(None) => Err(Unsupported)
    case Ok(Some(y)) =>
      if y.amount == 0.0 then Err(ZeroDivision)
      else
        var n := round(x.amount / y.amount);
        MultipleIsWhole(y.amount, n);
        Rebuild(x, Mul(y.amount, n as real), x.measure)
  }

  /** `amount / measure[key]`, where the division by a zero coefficient raises. */
  function Over(amount: real, c: Result<real>): (r: Result<real>)
    ensures r.Ok? <==> c.Ok? && c.value != 0.0
    ensures r.Ok? ==> Mul(r.value, c.value) == amount
  {
    match c
    case Err(e) => Err(e)
    case Ok(k) => if k == 0.0 then Err(ZeroDivision) else Ok(amount / k)
  }

  /**
   * `arb()` of a `DynamicMeasurement`: the stored amount times the coefficient
   * its stored unit has in the measure's table now.
   */
  function Arb(x: Measurement): (r: Result<real>)
    requires x.kind.Dynamic?
    reads Tables(x.measure)
    ensures r.Ok? <==> x.kind.unit.Some? && Coefficient(x.measure, x.kind.unit.value).Ok?
    ensures r.Ok? ==> r.value == Mul(x.amount, Coefficient(x.measure, x.kind.unit.value).value)
  {
    match x.kind.unit
    case None => Err(TypeError("expected string or bytes-like object"))
    case Some(u) =>
      match Coefficient(x.measure, u)
      case Err(e) => Err(e)
      case Ok(c) => Ok(Mul(x.amount, c))
  }

  /**
   * `self[key]`: the amount in the unit `key`. A plain measurement divides
   * its amount by the unit's coefficient; a dynamic one divides `arb()`,
   * evaluated against the live table.
   */
  function Reading(x: Measurement, key: Arg): (r: Result<real>)
    reads Tables(x.measure)
    ensures x.kind.Plain? ==> (r.Ok? <==> Coefficient(x.measure, key).Ok? && Coefficient(x.measure, key).value != 0.0)
    ensures x.kind.Plain? && r.Ok? ==> Mul(r.value, Coefficient(x.measure, key).value) == x.amount
    ensures x.kind.Dynamic? && r.Ok? ==>
      Arb(x).Ok? && Coefficient(x.measure, key).Ok? && Mul(r.value, Coefficient(x.measure, key).value) == Arb(x).value
  {
    match x.kind
    case Plain => Over(x.amount, Coefficient(x.measure, key))
    case Dynamic(_) =>
      match Arb(x)
      case Err(e) => Err(e)
      case Ok(a) => Over(a, Coefficient(x.measure, key))
  }

  /** A measurement read in a unit and made again from that reading in the same unit is the same measurement. */
  lemma ReadingRoundTrip(x: Measurement, unit: string)
    requires x.kind.Plain? && !IsDynamic(x.measure) && !x.measure.Scalar?
    requires Reading(x, Text(unit)).Ok?
    ensures Call(x.measure, Some(Text(unit)), Count(Reading(x, Text(unit)).value)) == Ok(Measured(x))
  {
    var c := Coefficient(x.measure, Text(unit)).value;
    assert Mul(Reading(x, Text(unit)).value, c) == x.amount;
  }

  // ---------------------------------------------------------------------------
  // Arithmetic that combines measures: the registry of derived measures grows
  // ---------------------------------------------------------------------------

  /** What the registry asks of an operand's measure. */
  ghost predicate Ready(reg: Registry, x: Measurement)
    reads reg, reg.cache.Values, x.measure.Objs()
  {
    reg.Valid() && reg.Interned(x.measure) && x.measure.Canonical()
  }

  /** A canonical measure is the scalar exactly when no primitive has a non-zero power in it. */
  lemma NoPowerIsScalar(m: Measure)
    requires m.Canonical()
    ensures m.Scalar? <==> forall p :: m.Power(p) == 0
  {
    match m
    case Scalar =>
    case Primitive(q) =>
      assert m.Power(q) == 1;
    case Compound(d) =>
      var q := d.parts.keys[0];
      assert q in d.parts.vals;
      assert m.Power(q) != 0;
  }

  /**
   * `self * other`: by a number the measure stays; by a measurement the
   * amounts multiply and the powers of the measures add (and the product of
   * reciprocal measures is the bare number); by anything else the operator
   * declines.
   */
  method Product(reg: Registry, x: Measurement, v: Arg) returns (r: Result<Value>)
    requires Ready(reg, x)
    requires v.Meas? ==> Ready(reg, v.measurement)
    modifies reg, reg.cache.Values
    ensures reg.Valid() && reg.Grows(old(reg.cache))
    ensures v.Text? ==> r == Err(Unsupported)
    ensures v.Num? ==> r == Scale(x, v.number) && reg.cache == old(reg.cache)
    ensures v.Meas? ==> (r.Ok? <==> x.kind.Plain?)
    ensures v.Meas? && r.Ok? ==>
      && r.value.AmountOf() == Mul(x.amount, v.measurement.amount)
      && reg.Interned(r.value.MeasureOf()) && r.value.MeasureOf().Canonical()
      && (forall p :: r.value.MeasureOf().Power(p) == x.measure.Power(p) + v.measurement.measure.Power(p))
      && (r.value.Bare? <==> forall p :: x.measure.Power(p) + v.measurement.measure.Power(p) == 0)
  {
    match v
    case Text(_) =>
      r := Err(Unsupported);
    case Num(k) =>
      r := Scale(x, k);
    case Meas(y) =>
      var m := reg.Multiply(x.measure, y.measure);
      r := Rebuild(x, Mul(x.amount, y.amount), m);
      NoPowerIsScalar(m);
  }

  /**
   * `self / other`: by a number the measure stays; by a measurement the
   * measures divide (the quotient measure is built before the amounts are
   * divided) and the powers subtract.
   */
  method Quotient(reg: Registry, x: Measurement, v: Arg) returns (r: Result<Value>)
    requires Ready(reg, x)
    requires v.Meas? ==> Ready(reg, v.measurement)
    modifies reg, reg.cache.Values
    ensures reg.Valid() && reg.Grows(old(reg.cache))
    ensures v.Text? ==> r == Err(Unsupported)
    ensures v.Num? ==> r == Shrink(x, v.number) && reg.cache == old(reg.cache)
    ensures v.Meas? ==> (r.Ok? <==> x.kind.Plain? && v.measurement.amount != 0.0)
    ensures v.Meas? && v.measurement.amount == 0.0 ==> r == Err(ZeroDivision)
    ensures v.Meas? && r.Ok? ==>
      && Mul(r.value.AmountOf(), v.measurement.amount) == x.amount
      && reg.Interned(r.value.MeasureOf()) && r.value.MeasureOf().Canonical()
      && (forall p :: r.value.MeasureOf().Power(p) == x.measure.Power(p) - v.measurement.measure.Power(p))
      && (r.value.Bare? <==> forall p :: x.measure.Power(p) == v.measurement.measure.Power(p))
  {
    match v
    case Text(_) =>
      r := Err(Unsupported);
    case Num(k) =>
      r := Shrink(x, k);
    case Meas(y) =>
      var m := reg.Divide(x.measure, y.measure);
      if y.amount == 0.0 {
        return Err(ZeroDivision);
      }
      r := Rebuild(x, x.amount / y.amount, m);
      NoPowerIsScalar(m);
  }

  /** `number / self`: the number over the amount, in the inverse measure. */
  method DivideInto(reg: Registry, k: real, x: Measurement) returns (r: Result<Value>)
    requires Ready(reg, x)
    modifies reg, reg.cache.Values
    ensures reg.Valid() && reg.Grows(old(reg.cache))
    ensures r.Ok? <==> x.kind.Plain? && x.amount != 0.0
    ensures x.amount == 0.0 ==> r == Err(ZeroDivision) && reg.cache == old(reg.cache)
    ensures r.Ok? ==>
      && Mul(r.value.AmountOf(), x.amount) == k
      && reg.Interned(r.value.MeasureOf()) && r.value.MeasureOf().Canonical()
      && (forall p :: r.value.MeasureOf().Power(p) == -x.measure.Power(p))
  {
    if x.amount == 0.0 {
      return Err(ZeroDivision);
    }
    var m := reg.Invert(x.measure);
    r := Rebuild(x, k / x.amount, m);
  }

  /** `~self`, which the source computes as `1 / self`. */
  method Invert(reg: Registry, x: Measurement) returns (r: Result<Value>)
    requires Ready(reg, x)
    modifies reg, reg.cache.Values
    ensures reg.Valid() && reg.Grows(old(reg.cache))
    ensures r.Ok? <==> x.kind.Plain? && x.amount != 0.0
    ensures r.Ok? ==>
      && Mul(r.value.AmountOf(), x.amount) == 1.0
      && reg.Interned(r.value.MeasureOf()) && r.value.MeasureOf().Canonical()
      && (forall p :: r.value.MeasureOf().Power(p) == -x.measure.Power(p))
  {
    r := DivideInto(reg, 1.0, x);
  }

  /**
   * `self ** power`: the amount raised by the interpreter's `**` (`pow`,
   * which may raise), then the measure raised.
   */
  method Pow(reg: Registry, x: Measurement, power: real, pow: (real, real) -> Result<real>) returns (r: Result<Value>)
    requires Ready(reg, x)
    modifies reg, reg.cache.Values
    ensures reg.Valid() && reg.Grows(old(reg.cache))
    ensures pow(x.amount, power).Err? ==> r == Err(pow(x.amount, power).error) && reg.cache == old(reg.cache)
    ensures r.Ok? ==>
      && x.kind.Plain? && pow(x.amount, power).Ok?
      && r.value.AmountOf() == pow(x.amount, power).value
      && reg.Interned(r.value.MeasureOf()) && r.value.MeasureOf().Canonical()
      && (forall p :: r.value.MeasureOf().Power(p) as real == Mul(x.measure.Power(p) as real, power))
  {
    var a := pow(x.amount, power);
    if a.Err? {
      return Err(a.error);
    }
    var m := reg.Raise(x.measure, power);
    if m.Err? {
      return Err(m.error);
    }
    r := Rebuild(x, a.value, m.value);
  }

  /**
   * `root(n)`: `1 / n` is taken first (so a zero root raises before anything
   * else), then the amount is raised to it and the measure's root taken.
   */
  method Root(reg: Registry, x: Measurement, n: int, pow: (real, real) -> Result<real>) returns (r: Result<Value>)
    requires Ready(reg, x)
    modifies reg, reg.cache.Values
    ensures reg.Valid() && reg.Grows(old(reg.cache))
    ensures n == 0 ==> r == Err(ZeroDivision)
    ensures r.Ok? ==>
      && x.kind.Plain? && n != 0 && pow(x.amount, 1.0 / n as real).Ok?
      && r.value.AmountOf() == pow(x.amount, 1.0 / n as real).value
      && reg.Interned(r.value.MeasureOf()) && r.value.MeasureOf().Canonical()
      && (forall p :: r.value.MeasureOf().Power(p) * n == x.measure.Power(p))
  {
    if n == 0 {
      return Err(ZeroDivision);
    }
    var a := pow(x.amount, 1.0 / n as real);
    if a.Err? {
      return Err(a.error);
    }
    var m := reg.Root(x.measure, n);
    if m.Err? {
      return Err(m.error);
    }
    r := Rebuild(x, a.value, m.value);
  }
}
