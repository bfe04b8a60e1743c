/**
 * Worked examples: the temperature measure of the linear tests (kelvin,
 * celsius and fahrenheit on one ladder table, read through both views), a
 * position aggregate over a basic measure, and a dynamic measure whose
 * measurements follow later changes to its table.
 */
module Scenarios {
  import opened Base
  import opened Util
  import opened Linear
  import Basic
  import Derived
  import Algebra
  import M = Measurements
  import A = Aggregates

  // ---------------------------------------------------------------------------
  // Parsing the amounts the examples use
  // ---------------------------------------------------------------------------

  /** A string of digits has no commas to remove. */
  lemma {:induction false} NoCommas(n: string)
    requires forall k :: 0 <= k < |n| ==> IsDigit(n[k])
    ensures RemoveCommas(n) == n
  {
    if n != [] {
      NoCommas(n[1..]);
    }
  }

  /** Digits, one space and a one-letter unit name split into the number and the name. */
  lemma SplitsAs(n: string, unit: string, v: real)
    requires |n| > 0 && forall k :: 0 <= k < |n| ==> IsDigit(n[k])
    requires DigitsValue(n) as real == v
    requires |unit| == 1 && !IsSpace(unit[0]) && unit[0] != '\n'
    ensures SplitAmountArgs(n + " " + unit, None) == Ok((Some(v), unit))
  {
    NoCommas(n);
    assert IsDigit(n[0]);
    SplitWholeNumber(n, " ", unit, None);
  }

  lemma Spelled25C()
    ensures SplitAmountArgs("25 C", None) == Ok((Some(25.0), "C"))
  {
    assert "25"[..1] == "2";
    SplitsAs("25", "C", 25.0);
    assert "25" + " " + "C" == "25 C";
  }

  lemma Spelled0C()
    ensures SplitAmountArgs("0 C", None) == Ok((Some(0.0), "C"))
  {
    SplitsAs("0", "C", 0.0);
    assert "0" + " " + "C" == "0 C";
  }

  lemma Spelled100C()
    ensures SplitAmountArgs("100 C", None) == Ok((Some(100.0), "C"))
  {
    assert "100"[..2] == "10" && "10"[..1] == "1";
    SplitsAs("100", "C", 100.0);
    assert "100" + " " + "C" == "100 C";
  }

  lemma Spelled75C()
    ensures SplitAmountArgs("75 C", None) == Ok((Some(75.0), "C"))
  {
    assert "75"[..1] == "7";
    SplitsAs("75", "C", 75.0);
    assert "75" + " " + "C" == "75 C";
  }

  lemma Spelled135F()
    ensures SplitAmountArgs("135 F", None) == Ok((Some(135.0), "F"))
  {
    assert "135"[..2] == "13" && "13"[..1] == "1";
    SplitsAs("135", "F", 135.0);
    assert "135" + " " + "F" == "135 F";
  }

  // ---------------------------------------------------------------------------
  // Temperature
  // ---------------------------------------------------------------------------

  function Celsius(): Ladder {
    Ladder(1.0, 273.15)
  }

  function Fahrenheit(): Ladder {
    Ladder(5.0 / 9.0, 459.67)
  }

  /**
   * `from_points((-273.15, 0), (0, 273.15))` gives the celsius ladder, as
   * written and as intended: the first kelvin point is 0, where the two
   * offset formulas agree.
   */
  lemma CelsiusLadder()
    ensures FromPoints((-273.15, 0.0), (0.0, 273.15), None) == Ok(Celsius())
    ensures FromPointsAsWritten((-273.15, 0.0), (0.0, 273.15), None) == Ok(Celsius())
  {
    SolveUnique((-273.15, 0.0), (0.0, 273.15), Celsius());
    AsWrittenAgreement((-273.15, 0.0), (0.0, 273.15));
  }

  /** `from_points((-459.67, -40), (0, 233.15))` gives the fahrenheit ladder, as written and as intended. */
  lemma FahrenheitLadder()
    ensures FromPoints((-459.67, -40.0), (0.0, 233.15), None) == Ok(Fahrenheit())
    ensures FromPointsAsWritten((-459.67, -40.0), (0.0, 233.15), None) == Ok(Fahrenheit())
  {
    SolveUnique((-459.67, -40.0), (0.0, 233.15), Fahrenheit());
    AsWrittenAgreement((-459.67, -40.0), (0.0, 233.15));
  }

  /** The temperature table: each ladder under a short and a long name. */
  function TemperatureTable(): map<string, LadderEntry> {
    map[]["K" := Rung(Arbitrary())]["kelvin" := Rung(Arbitrary())]
      ["C" := Rung(Celsius())]["celsius" := Rung(Celsius())]
      ["F" := Rung(Fahrenheit())]["fahrenheit" := Rung(Fahrenheit())]
  }

  /** `measure[short] = measure[long] = ladder` for two names the measure does not have yet. */
  method AssignTwice(t: LinearMeasure, short: string, long: string, l: Ladder)
    requires t.Valid() && short != long && short !in t.ladders && long !in t.ladders
    modifies t
    ensures t.Valid()
    ensures t.ladders == old(t.ladders)[short := Rung(l)][long := Rung(l)]
    ensures t.order == old(t.order) + [short, long]
  {
    t.SetItem(short, Rung(l));
    t.SetItem(long, Rung(l));
  }

  /**
   * `Temperature = LinearMeasure('temperature')` followed by the chained
   * assignments of the three ladders, each under two names.
   */
  method NewTemperature() returns (t: LinearMeasure)
    ensures fresh(t) && t.Valid()
    ensures t.ladders == TemperatureTable()
    ensures t.order == ["K", "kelvin", "C", "celsius", "F", "fahrenheit"]
  {
    t := new LinearMeasure("temperature");
    AssignTwice(t, "K", "kelvin", Arbitrary());
    AssignTwice(t, "C", "celsius", Celsius());
    AssignTwice(t, "F", "fahrenheit", Fahrenheit());
  }

  /**
   * `temperature.add_ladder('F', (32, 212), (273.15, 373.15))`: calibrating
   * fahrenheit on the water points against kelvin fails the assertion of
   * `from_points` as written, and the table keeps what it had.
   */
  method FahrenheitOnWaterPoints(t: LinearMeasure) returns (r: Result<Ladder>)
    requires t.Valid()
    modifies t
    ensures r == Err(CalibrationFailed)
    ensures t.ladders == old(t.ladders) && t.order == old(t.order)
  {
    FahrenheitByWaterPoints();
    r := t.AddLadder("F", (32.0, 212.0), (273.15, 373.15), OnArbitrary);
  }

  /** Each name of the temperature table stands for its ladder. */
  lemma TemperatureEntries(t: LinearMeasure)
    requires t.ladders == TemperatureTable()
    ensures t.Get("K") == Ok(Arbitrary()) && t.Get("kelvin") == Ok(Arbitrary())
    ensures t.Get("C") == Ok(Celsius()) && t.Get("celsius") == Ok(Celsius())
    ensures t.Get("F") == Ok(Fahrenheit()) && t.Get("fahrenheit") == Ok(Fahrenheit())
  {
  }

  function Delta(t: LinearMeasure): Algebra.Measure {
    Algebra.Primitive(Derived.DeltaPrim(t))
  }

  /** `absolute('25 C')` is 298.15 on the arbitrary ladder. */
  lemma RoomTemperature(t: LinearMeasure, room: string)
    requires t.Get("C") == Ok(Celsius())
    requires SplitAmountArgs(room, None) == Ok((Some(25.0), "C"))
    ensures A.Position(A.AbsoluteOf(t), M.Text(room), None) == Ok(A.AbsMeasurement(298.15, A.AbsoluteOf(t)))
  {
  }

  /** 298.15 on the arbitrary ladder reads 298.15 kelvin and 77 fahrenheit. */
  lemma RoomReadings(t: LinearMeasure)
    requires t.Get("kelvin") == Ok(Arbitrary()) && t.Get("fahrenheit") == Ok(Fahrenheit())
    ensures A.Reading(A.AbsMeasurement(298.15, A.AbsoluteOf(t)), M.Text("kelvin")) == Ok(298.15)
    ensures A.Reading(A.AbsMeasurement(298.15, A.AbsoluteOf(t)), M.Text("fahrenheit")) == Ok(77.0)
  {
  }

  /** `absolute('0 C')` is 273.15, below room temperature. */
  lemma Freezing(t: LinearMeasure, freezing: string)
    requires t.Get("C") == Ok(Celsius())
    requires SplitAmountArgs(freezing, None) == Ok((Some(0.0), "C"))
    ensures A.Position(A.AbsoluteOf(t), M.Text(freezing), None) == Ok(A.AbsMeasurement(273.15, A.AbsoluteOf(t)))
    ensures A.Compare(A.AbsMeasurement(298.15, A.AbsoluteOf(t)), A.OfPoint(A.AbsMeasurement(273.15, A.AbsoluteOf(t))), M.Above) == Ok(true)
  {
    A.PositionSpellings(A.AbsoluteOf(t), freezing, 0.0, "C");
    assert A.UnitOf(A.AbsoluteOf(t), M.Text("C")) == Ok(A.LadderUnit(Celsius()));
    assert A.LadderUnit(Celsius()).ToArb(0.0) == 273.15;
    A.ComparePoints(A.AbsMeasurement(298.15, A.AbsoluteOf(t)), A.AbsMeasurement(273.15, A.AbsoluteOf(t)), M.Above);
  }

  /** Room temperature minus freezing is the interval of 25 kelvin, which reads 45 in fahrenheit. */
  lemma RoomAboveFreezing(t: LinearMeasure)
    requires t.Get("F") == Ok(Fahrenheit())
    ensures A.Sub(A.AbsMeasurement(298.15, A.AbsoluteOf(t)), A.OfPoint(A.AbsMeasurement(273.15, A.AbsoluteOf(t))))
         == Ok(A.Apart(M.Measured(M.Measurement(25.0, Delta(t), M.Plain))))
    ensures M.Reading(M.Measurement(25.0, Delta(t), M.Plain), M.Text("F")) == Ok(45.0)
  {
    NoSpaceNoAmount("F", None);
  }

  /** `delta('100 C')` is an interval of 100 kelvin. */
  lemma HundredDegrees(t: LinearMeasure, hundred: string)
    requires t.Get("C") == Ok(Celsius())
    requires SplitAmountArgs(hundred, None) == Ok((Some(100.0), "C"))
    ensures M.Call(Delta(t), Some(M.Text(hundred)), M.Count(1.0)) == Ok(M.Measured(M.Measurement(100.0, Delta(t), M.Plain)))
  {
    CelsiusScale(t, hundred, 100.0);
    assert M.Swap(Some(M.Text(hundred)), M.Count(1.0)) == (Some(M.Text(hundred)), M.Count(1.0));
    assert Mul(1.0, 100.0) == 100.0;
  }

  /** "<a> C" is `a` in the delta view's arbitrary unit. */
  lemma CelsiusScale(t: LinearMeasure, item: string, a: real)
    requires t.Get("C") == Ok(Celsius())
    requires SplitAmountArgs(item, None) == Ok((Some(a), "C"))
    ensures M.Coefficient(Delta(t), M.Text(item)) == Ok(a)
  {
    NoSpaceNoAmount("C", None);
    assert t.DeltaScale("C") == Ok(1.0);
    DeltaAmountScales(t, item, a, "C");
  }

  /** Freezing moved by 100 kelvin is boiling, 75 kelvin above room temperature. */
  lemma Boiling(t: LinearMeasure)
    ensures A.Add(A.AbsMeasurement(273.15, A.AbsoluteOf(t)), A.OfArg(M.Meas(M.Measurement(100.0, Delta(t), M.Plain))))
         == Ok(A.AbsMeasurement(373.15, A.AbsoluteOf(t)))
    ensures A.Sub(A.AbsMeasurement(373.15, A.AbsoluteOf(t)), A.OfPoint(A.AbsMeasurement(298.15, A.AbsoluteOf(t))))
         == Ok(A.Apart(M.Measured(M.Measurement(75.0, Delta(t), M.Plain))))
  {
  }

  /** The interval of 75 kelvin equals "75 C". */
  lemma SeventyFiveCelsius(t: LinearMeasure, c75: string)
    requires t.Get("C") == Ok(Celsius())
    requires SplitAmountArgs(c75, None) == Ok((Some(75.0), "C"))
    ensures M.Equals(M.Measurement(75.0, Delta(t), M.Plain), M.Text(c75)) == Ok(true)
  {
    CelsiusScale(t, c75, 75.0);
  }

  /** "135 F" is 75 in the delta view's arbitrary unit. */
  lemma HundredThirtyFiveFahrenheitScale(t: LinearMeasure, f135: string)
    requires t.Get("F") == Ok(Fahrenheit())
    requires SplitAmountArgs(f135, None) == Ok((Some(135.0), "F"))
    ensures M.Coefficient(Delta(t), M.Text(f135)) == Ok(75.0)
  {
    NoSpaceNoAmount("F", None);
    assert t.DeltaScale("F") == Ok(5.0 / 9.0);
    DeltaAmountScales(t, f135, 135.0, "F");
    assert 135.0 * (5.0 / 9.0) == 75.0;
  }

  /** The interval of 75 kelvin equals "135 F". */
  lemma HundredThirtyFiveFahrenheit(t: LinearMeasure, f135: string)
    requires t.Get("F") == Ok(Fahrenheit())
    requires SplitAmountArgs(f135, None) == Ok((Some(135.0), "F"))
    ensures M.Equals(M.Measurement(75.0, Delta(t), M.Plain), M.Text(f135)) == Ok(true)
  {
    HundredThirtyFiveFahrenheitScale(t, f135);
  }

  // ---------------------------------------------------------------------------
  // A dynamic measure reads its table when asked, not when the measurement is made
  // ---------------------------------------------------------------------------

  lemma Spelled3Pog()
    ensures SplitAmountArgs("3 pog", None) == Ok((Some(3.0), "pog"))
  {
    assert IsDigit("3"[0]);
    SplitsAsWord("3", "pog", 3.0);
    assert "3" + " " + "pog" == "3 pog";
  }

  /** Digits, one space and a unit name of letters split into the number and the name. */
  lemma SplitsAsWord(n: string, unit: string, v: real)
    requires |n| > 0 && forall k :: 0 <= k < |n| ==> IsDigit(n[k])
    requires DigitsValue(n) as real == v
    requires |unit| > 0 && forall k :: 0 <= k < |unit| ==> IsLetter(unit[k])
    ensures SplitAmountArgs(n + " " + unit, None) == Ok((Some(v), unit))
  {
    NoCommas(n);
    assert IsDigit(n[0]);
    assert IsLetter(unit[0]);
    SplitWholeNumber(n, " ", unit, None);
  }

  /** `money('3 pog')` on a dynamic measure keeps the unit string as given, with the amount 1. */
  lemma LiveMade(b: Basic.BasicMeasure, three: string)
    requires b.dynamic
    ensures var money := Algebra.Primitive(Derived.BasicPrim(b));
      M.Call(money, Some(M.Text(three)), M.Count(1.0))
      == Ok(M.Measured(M.Measurement(1.0, money, M.Dynamic(Some(M.Text(three))))))
  {
  }

  /**
   * The `arb()` of a dynamic measurement made from an amount and a unit name
   * is the amount times what the name stands for in the table right now.
   */
  lemma LiveReading(b: Basic.BasicMeasure, item: string, unit: string, a: real, rate: real)
    requires b.dynamic
    requires b.split(item) == Ok((Some(a), unit)) && b.split(unit) == Ok((None, unit))
    requires unit in b.units && b.units[unit] == Basic.Coef(rate)
    ensures M.Arb(M.Measurement(1.0, Algebra.Primitive(Derived.BasicPrim(b)), M.Dynamic(Some(M.Text(item)))))
         == Ok(Mul(a, rate))
  {
    Basic.AmountOfCoefficient(b.split, b.units, item, MaxDepth, a, unit, rate);
    var money := Algebra.Primitive(Derived.BasicPrim(b));
    var c := b.Get(item);
    assert c == Basic.Lookup(b.split, b.units, item, MaxDepth);
    assert M.Coefficient(money, M.Text(item)) == c;
    assert Mul(1.0, Mul(a, rate)) == Mul(a, rate);
  }

  /**
   * A dynamic measure with a unit `pog` worth `before`: the measurement made
   * from "3 pog" is worth 3 * `before` in the arbitrary unit, and after
   * `money[pog] = after` the same measurement is worth 3 * `after`.
   */
  method LiveTable(pog: string, three: string, before: real, after: real) returns (first: Result<real>, second: Result<real>)
    requires SplitAmountArgs(pog, None) == Ok((None, pog))
    requires SplitAmountArgs(three, None) == Ok((Some(3.0), pog))
    ensures first == Ok(Mul(3.0, before)) && second == Ok(Mul(3.0, after))
  {
    var b := new Basic.BasicMeasure("money", true, [(pog, Basic.Coef(before))]);
    assert b.units[pog] == Basic.Coef(before);
    var money := Algebra.Primitive(Derived.BasicPrim(b));
    LiveMade(b, three);
    LiveReading(b, three, pog, 3.0, before);
    var made := M.Call(money, Some(M.Text(three)), M.Count(1.0));
    var x := made.value.measurement;
    assert x == M.Measurement(1.0, money, M.Dynamic(Some(M.Text(three))));
    first := M.Arb(x);
    assert first == Ok(Mul(3.0, before));
    b.SetItem(pog, Basic.Coef(after));
    LiveReading(b, three, pog, 3.0, after);
    second := M.Arb(x);
    assert second == Ok(Mul(3.0, after));
  }

  /** The unit name "pog" carries no amount. */
  lemma PlainPog()
    ensures SplitAmountArgs("pog", None) == Ok((None, "pog"))
  {
    NoSpaceNoAmount("pog", None);
  }

  // ---------------------------------------------------------------------------
  // Positions: the aggregate of a basic distance measure
  // ---------------------------------------------------------------------------

  function Distance(d: Basic.BasicMeasure): Algebra.Measure {
    Algebra.Primitive(Derived.BasicPrim(d))
  }

  /** `Position(text)` for an amount in meters is that many meters along the aggregate. */
  lemma Placed(d: Basic.BasicMeasure, text: string, x: real)
    requires d.split == SplitLeading && d.Get("m") == Ok(1.0)
    requires SplitAmountArgs(text, None) == Ok((Some(x), "m"))
    ensures A.Position(A.BasicAggregate(Distance(d)), M.Text(text), None) == Ok(A.AbsMeasurement(x, A.BasicAggregate(Distance(d))))
  {
    A.PositionSpellings(A.BasicAggregate(Distance(d)), text, x, "m");
    assert Mul(x, 1.0) == x;
  }

  /** `2 * Distance.foot` is the interval of twice a foot's worth of meters. */
  lemma TwoFeet(d: Basic.BasicMeasure, foot: real)
    requires !d.dynamic && d.split == SplitLeading && d.Get("foot") == Ok(foot)
    ensures M.Call(Distance(d), Some(M.Text("foot")), M.Count(1.0)) == Ok(M.Measured(M.Measurement(foot, Distance(d), M.Plain)))
    ensures M.Scale(M.Measurement(foot, Distance(d), M.Plain), 2.0) == Ok(M.Measured(M.Measurement(Mul(foot, 2.0), Distance(d), M.Plain)))
  {
    assert M.Coefficient(Distance(d), M.Text("foot")) == Ok(foot);
    assert Mul(1.0, foot) == foot;
    assert M.Convert(Distance(d), M.Text("foot"), M.Count(1.0)) == Ok(M.Make(foot, Distance(d)));
    assert M.Swap(Some(M.Text("foot")), M.Count(1.0)) == (Some(M.Text("foot")), M.Count(1.0));
  }

  /**
   * `jerry += 2 * Distance.foot` moves the point at -6 meters by two feet,
   * which leaves it short of `tom` at 8 meters whenever a foot is less than
   * 7 meters.
   */
  lemma JerryBehindTom(d: Basic.BasicMeasure, foot: real)
    requires 0.0 <= foot < 7.0
    ensures var pos := A.BasicAggregate(Distance(d));
      var moved := A.AbsMeasurement(-6.0 + Mul(foot, 2.0), pos);
      && A.Add(A.AbsMeasurement(-6.0, pos), A.OfArg(M.Meas(M.Measurement(Mul(foot, 2.0), Distance(d), M.Plain)))) == Ok(moved)
      && A.Compare(moved, A.OfPoint(A.AbsMeasurement(8.0, pos)), M.Below) == Ok(true)
  {
    var pos := A.BasicAggregate(Distance(d));
    var step := M.Measurement(Mul(foot, 2.0), Distance(d), M.Plain);
    assert A.ToDelta(A.AbsMeasurement(-6.0, pos), A.OfArg(M.Meas(step))) == Ok(Some(step));
    A.ComparePoints(A.AbsMeasurement(-6.0 + Mul(foot, 2.0), pos), A.AbsMeasurement(8.0, pos), M.Below);
  }

  lemma Spelled8M()
    ensures SplitAmountArgs("8 m", None) == Ok((Some(8.0), "m"))
  {
    SplitsAs("8", "m", 8.0);
    assert "8" + " " + "m" == "8 m";
  }
}
