/**
 * Linear measures: a measure (temperature is the example) whose units are
 * ladders, affine maps onto a common arbitrary scale, and whose two faces are
 * the delta (an interval, 0-based) and the absolute (a position, not 0-based).
 */
module Linear {
  import opened Base
  import opened Util

  /**
   * A ladder: a value `v` on this ladder stands for `(v + offset) * scale`
   * on the arbitrary ladder.
   */
  datatype Ladder = Ladder(scale: real, offset: real) {

    /** Arbitrary-ladder value to this ladder; dividing by a zero scale raises. */
    function FromArb(v: real): (r: Result<real>)
      ensures r.Err? <==> scale == 0.0
      ensures r.Err? ==> r.error == ZeroDivision
      ensures r.Ok? ==> (r.value + offset) * scale == v
    {
      if scale == 0.0 then Err(ZeroDivision) else Ok(v / scale - offset)
    }

    /** This ladder's value to the arbitrary ladder. */
    function ToArb(v: real): real {
      (v + offset) * scale
    }
  }

  /** `from_arb` undoes `to_arb` on every ladder with a non-zero scale. */
  lemma ArbRoundTrip(l: Ladder, v: real)
    requires l.scale != 0.0
    ensures l.FromArb(l.ToArb(v)) == Ok(v)
  {
    assert l.ToArb(v) == (v + l.offset) * l.scale;
    assert (v + l.offset) * l.scale / l.scale == v + l.offset;
  }

  /** `to_arb` undoes `from_arb` wherever `from_arb` succeeds. */
  lemma ArbRoundTripBack(l: Ladder, v: real)
    requires l.FromArb(v).Ok?
    ensures l.ToArb(l.FromArb(v).value) == v
  {
  }

  /** The arbitrary ladder: scale 1, offset 0, the identity on values. */
  function Arbitrary(): (l: Ladder)
    ensures forall v :: l.ToArb(v) == v && l.FromArb(v) == Ok(v)
  {
    Ladder(1.0, 0.0)
  }

  /**
   * The ladder through two fixed points: `t` are two values on the new ladder,
   * `o` the same two temperatures on the arbitrary ladder. Both divisions of
   * the construction fail when the points coincide on either side.
   */
  function Solve(t: (real, real), o: (real, real)): (r: Result<Ladder>)
    ensures r.Err? <==> t.0 == t.1 || o.0 == o.1
    ensures r.Err? ==> r.error == ZeroDivision
    ensures r.Ok? ==> r.value.scale != 0.0
    ensures r.Ok? ==> r.value.ToArb(t.0) == o.0 && r.value.ToArb(t.1) == o.1
  {
    if t.0 == t.1 then Err(ZeroDivision)
    else
      var s := (o.0 - o.1) / (t.0 - t.1);
      if s == 0.0 then Err(ZeroDivision)
      else
        var l := Ladder(s, o.0 / s - t.0);
        assert l.ToArb(t.1) == o.1 by {
          calc {
            (t.1 + o.0 / s - t.0) * s;
            (t.1 - t.0) * s + o.0;
            (t.1 - t.0) * (o.0 - o.1) / (t.0 - t.1) + o.0;
            o.1;
          }
        }
        Ok(l)
  }

  /** How `add_ladder` names the ladder its second pair of points lies on. */
  datatype LadderRef = OnArbitrary | OnNamed(name: string) | OnLadder(ladder: Ladder)

  /**
   * `Ladder.from_points` as intended: when the reference points lie on another
   * ladder they are first carried to the arbitrary ladder.
   */
  function FromPoints(t: (real, real), o: (real, real), other: Option<Ladder>): (r: Result<Ladder>)
    ensures other.None? ==> r == Solve(t, o)
    ensures other.Some? ==> r == Solve(t, (other.value.ToArb(o.0), other.value.ToArb(o.1)))
    decreases other.Some?
  {
    match other
    case None => Solve(t, o)
    case Some(l) => FromPoints(t, (l.ToArb(o.0), l.ToArb(o.1)), None)
  }

  /** The result of `FromPoints` is the ladder through its points, as seen on the reference ladder. */
  lemma FromPointsCalibrated(t: (real, real), o: (real, real), other: Option<Ladder>)
    requires FromPoints(t, o, other).Ok?
    ensures var l := FromPoints(t, o, other).value;
      var ref := if other.Some? then other.value else Arbitrary();
      l.ToArb(t.0) == ref.ToArb(o.0) && l.ToArb(t.1) == ref.ToArb(o.1)
  {
  }

  /** Two fixed points determine a ladder: any ladder through them is the one `Solve` builds. */
  lemma SolveUnique(t: (real, real), o: (real, real), l: Ladder)
    requires t.0 != t.1 && l.scale != 0.0
    requires l.ToArb(t.0) == o.0 && l.ToArb(t.1) == o.1
    ensures Solve(t, o) == Ok(l)
  {
    var s := (o.0 - o.1) / (t.0 - t.1);
    assert o.0 - o.1 == (t.0 - t.1) * l.scale;
    assert s == l.scale;
    assert l.offset == o.0 / s - t.0 by {
      assert o.0 == (t.0 + l.offset) * s;
      assert o.0 / s == t.0 + l.offset;
    }
  }

  /**
   * `Ladder.from_points` as written: the offset is computed as `o0 * s - t0`
   * and the construction then asserts that the new ladder maps `o1` back to
   * `t1` (an exact comparison stands for `isclose`).
   */
  function SolveAsWritten(t: (real, real), o: (real, real)): (r: Result<Ladder>)
    ensures r.Ok? ==> r.value.FromArb(o.1) == Ok(t.1)
  {
    if t.0 == t.1 then Err(ZeroDivision)
    else
      var s := (o.0 - o.1) / (t.0 - t.1);
      var l := Ladder(s, o.0 * s - t.0);
      match l.FromArb(o.1)
      case Err(e) => Err(e)
      case Ok(x) => if x == t.1 then Ok(l) else Err(CalibrationFailed)
  }

  function FromPointsAsWritten(t: (real, real), o: (real, real), other: Option<Ladder>): (r: Result<Ladder>)
    ensures other.None? ==> r == SolveAsWritten(t, o)
    ensures other.Some? ==> r == SolveAsWritten(t, (other.value.ToArb(o.0), other.value.ToArb(o.1)))
    decreases other.Some?
  {
    match other
    case None => SolveAsWritten(t, o)
    case Some(l) => FromPointsAsWritten(t, (l.ToArb(o.0), l.ToArb(o.1)), None)
  }

  /** Multiplying and dividing by `s` agree exactly when `a` is 0 or `s` is 1 or -1. */
  lemma SameOffset(a: real, s: real)
    requires s != 0.0
    ensures a * s == a / s <==> a == 0.0 || s * s == 1.0
  {
    if a * s == a / s {
      assert a * s * s == a / s * s;
    }
    if a * s * s == a {
      assert a * s == a * s * s / s;
    }
    assert a * s * s - a == a * (s * s - 1.0);
  }

  /**
   * The written construction agrees with the intended one exactly when the
   * first arbitrary point is 0 or the scale is 1 or -1; otherwise its own
   * assertion fails.
   */
  lemma AsWrittenAgreement(t: (real, real), o: (real, real))
    requires Solve(t, o).Ok?
    ensures var s := Solve(t, o).value.scale;
      SolveAsWritten(t, o) == (if o.0 == 0.0 || s * s == 1.0 then Solve(t, o) else Err(CalibrationFailed))
  {
    var l := Solve(t, o).value;
    var s := l.scale;
    var w := Ladder(s, o.0 * s - t.0);
    assert l.FromArb(o.1) == Ok(t.1) by {
      ArbRoundTrip(l, t.1);
    }
    // `w` and `l` share the scale, so `w` maps o1 to t1 exactly when the offsets agree.
    assert w.FromArb(o.1).value == t.1 + l.offset - w.offset;
    SameOffset(o.0, s);
  }

  /** Whenever the written construction succeeds, it built the intended ladder. */
  lemma AsWrittenSoundWhenOk(t: (real, real), o: (real, real))
    ensures SolveAsWritten(t, o).Ok? ==> SolveAsWritten(t, o) == Solve(t, o)
  {
    if Solve(t, o).Ok? {
      AsWrittenAgreement(t, o);
    }
  }

  /**
   * Whenever the written construction succeeds, through a reference ladder or
   * not, it built the intended ladder.
   */
  lemma FromPointsAsWrittenSound(t: (real, real), o: (real, real), other: Option<Ladder>)
    requires FromPointsAsWritten(t, o, other).Ok?
    ensures FromPointsAsWritten(t, o, other) == FromPoints(t, o, other)
  {
    match other
    case None => AsWrittenSoundWhenOk(t, o);
    case Some(l) => AsWrittenSoundWhenOk(t, (l.ToArb(o.0), l.ToArb(o.1)));
  }

  /**
   * Fahrenheit calibrated on the water points against the arbitrary (kelvin)
   * ladder: 32 and 212 degrees are 273.15 and 373.15 kelvin. The written
   * construction fails its own assertion; the intended one gives scale 5/9
   * and offset 459.67.
   */
  lemma FahrenheitByWaterPoints()
    ensures SolveAsWritten((32.0, 212.0), (273.15, 373.15)) == Err(CalibrationFailed)
    ensures Solve((32.0, 212.0), (273.15, 373.15)) == Ok(Ladder(5.0 / 9.0, 459.67))
  {
    AsWrittenAgreement((32.0, 212.0), (273.15, 373.15));
    SolveUnique((32.0, 212.0), (273.15, 373.15), Ladder(5.0 / 9.0, 459.67));
  }

  /** An entry of a linear measure's table: a ladder, or the name of another entry. */
  datatype LadderEntry = Rung(ladder: Ladder) | Alias(target: string)

  /**
   * `LinearMeasure.__getitem__` on a table: aliases are chased until a ladder
   * is found; a missing name is a KeyError and `fuel` bounds the recursion.
   */
  function Lookup(ladders: map<string, LadderEntry>, item: string, fuel: nat): (r: Result<Ladder>)
    ensures r.Ok? ==> exists k :: k in ladders && ladders[k] == Rung(r.value)
    ensures item in ladders && ladders[item].Rung? && fuel > 0 ==> r == Ok(ladders[item].ladder)
    ensures item !in ladders && fuel > 0 ==> r == Err(KeyError(item))
    ensures r.Err? ==> r.error.KeyError? || r.error == RecursionLimit
    decreases fuel
  {
    if fuel == 0 then Err(RecursionLimit)
    else if item !in ladders then Err(KeyError(item))
    else match ladders[item]
      case Rung(l) => Ok(l)
      case Alias(t) => Lookup(ladders, t, fuel - 1)
  }

  /** Once a lookup completes, more depth does not change its answer. */
  lemma {:induction false} LookupFuel(ladders: map<string, LadderEntry>, item: string, f1: nat, f2: nat)
    requires Lookup(ladders, item, f1) != Err(RecursionLimit)
    requires Lookup(ladders, item, f2) != Err(RecursionLimit)
    ensures Lookup(ladders, item, f1) == Lookup(ladders, item, f2)
    decreases f1
  {
    if item in ladders && ladders[item].Alias? {
      LookupFuel(ladders, ladders[item].target, f1 - 1, f2 - 1);
    }
  }

  /**
   * Replacing an alias by the ladder it resolves to changes no completed
   * lookup of any name at any depth.
   */
  lemma {:induction false} ResolveOne(ladders: map<string, LadderEntry>, k: string, fuel: nat, item: string, f: nat)
    requires Lookup(ladders, k, fuel).Ok?
    requires Lookup(ladders, item, f) != Err(RecursionLimit)
    ensures Lookup(ladders[k := Rung(Lookup(ladders, k, fuel).value)], item, f) == Lookup(ladders, item, f)
    decreases f
  {
    var l := Lookup(ladders, k, fuel).value;
    if item == k {
      LookupFuel(ladders, k, fuel, f);
    } else if item in ladders && ladders[item].Alias? {
      ResolveOne(ladders, k, fuel, ladders[item].target, f - 1);
    }
  }

  /** The lookups a table answers without running out of depth. */
  ghost predicate Agrees(now: map<string, LadderEntry>, before: map<string, LadderEntry>) {
    forall item, f: nat {:trigger Lookup(before, item, f)} ::
      Lookup(before, item, f) != Err(RecursionLimit) ==> Lookup(now, item, f) == Lookup(before, item, f)
  }

  lemma ResolveOneAgrees(ladders: map<string, LadderEntry>, k: string, fuel: nat, before: map<string, LadderEntry>)
    requires Lookup(ladders, k, fuel).Ok?
    requires Agrees(ladders, before)
    ensures Agrees(ladders[k := Rung(Lookup(ladders, k, fuel).value)], before)
  {
    forall item, f: nat | Lookup(before, item, f) != Err(RecursionLimit)
      ensures Lookup(ladders[k := Rung(Lookup(ladders, k, fuel).value)], item, f) == Lookup(before, item, f)
    {
      ResolveOne(ladders, k, fuel, item, f);
    }
  }

  /** `LinearMeasure`: a named table of ladders, kept in insertion order. */
  class LinearMeasure {
    const name: string
    var ladders: map<string, LadderEntry>
    /** The keys of `ladders` in the order they were first assigned. */
    var order: seq<string>

    ghost predicate Valid()
      reads this
    {
      Indexed(ladders, order)
    }

    constructor(name: string)
      ensures Valid()
      ensures this.name == name && ladders == map[] && order == []
    {
      this.name := name;
      ladders := map[];
      order := [];
    }

    /** `self[item]`: the ladder a name stands for. */
    function Get(item: string): (r: Result<Ladder>)
      reads this
      ensures item in ladders && ladders[item].Rung? ==> r == Ok(ladders[item].ladder)
      ensures item !in ladders ==> r == Err(KeyError(item))
    {
      Lookup(ladders, item, MaxDepth)
    }

    /** `self[key] = value`: a new key goes last, an existing one keeps its place. */
    method SetItem(key: string, value: LadderEntry)
      requires Valid()
      modifies this
      ensures Valid()
      ensures (ladders, order) == Put(old(ladders), old(order), key, value)
    {
      PutIndexed(ladders, order, key, value);
      ladders, order := Put(ladders, order, key, value).0, Put(ladders, order, key, value).1;
    }

    /** The ladder `add_ladder`'s reference points lie on: none (the arbitrary ladder), a given one, or a named one. */
    function Reference(other: LadderRef): (r: Result<Option<Ladder>>)
      reads this
      ensures other.OnNamed? ==> (r.Ok? <==> Get(other.name).Ok?)
      ensures r.Ok? && other.OnNamed? ==> r.value == Some(Get(other.name).value)
    {
      match other
      case OnArbitrary => Ok(None)
      case OnLadder(l) => Ok(Some(l))
      case OnNamed(n) =>
        match Get(n)
        case Err(e) => Err(e)
        case Ok(l) => Ok(Some(l))
    }

    /**
     * `add_ladder`: build the ladder through the given points with
     * `from_points` as written, store it under `key` and return it. A
     * calibration whose own assertion fails (Fahrenheit on the water points
     * against kelvin) raises and stores nothing; one that succeeds built the
     * intended ladder through the points.
     */
    method AddLadder(key: string, t: (real, real), o: (real, real), other: LadderRef) returns (r: Result<Ladder>)
      requires Valid()
      modifies this
      ensures Valid()
      ensures var ref := old(Reference(other));
        && (ref.Err? ==> r == Err(ref.error))
        && (ref.Ok? ==> r == FromPointsAsWritten(t, o, ref.value))
        && (ref.Ok? && r.Ok? ==> r == FromPoints(t, o, ref.value))
      ensures r.Ok? ==> (ladders, order) == Put(old(ladders), old(order), key, Rung(r.value))
      ensures r.Err? ==> ladders == old(ladders) && order == old(order)
    {
      var ref: Option<Ladder>;
      match other {
        case OnArbitrary =>
          ref := None;
        case OnLadder(l) =>
          ref := Some(l);
        case OnNamed(n) =>
          var found := Get(n);
          if found.Err? {
            return Err(found.error);
          }
          ref := Some(found.value);
      }
      r := FromPointsAsWritten(t, o, ref);
      if r.Ok? {
        FromPointsAsWrittenSound(t, o, ref);
        SetItem(key, Rung(r.value));
      }
    }

    /**
     * `optimize_aliases`: every alias is replaced, in table order, by the ladder
     * it currently resolves to. A lookup that fails stops the pass with its
     * error, leaving the aliases already replaced in place. Either way no
     * lookup that used to complete changes its answer; on success no alias
     * is left.
     */
    method OptimizeAliases() returns (err: Option<Error>)
      requires Valid()
      modifies this
      ensures Valid()
      ensures ladders.Keys == old(ladders).Keys && order == old(order)
      ensures Agrees(ladders, old(ladders))
      ensures err.None? ==> forall k | k in ladders :: ladders[k].Rung?
      ensures err.Some? ==> err.value.KeyError? || err.value == RecursionLimit
    {
      var i := 0;
      while i < |order|
        invariant 0 <= i <= |order|
        invariant Valid()
        invariant ladders.Keys == old(ladders).Keys && order == old(order)
        invariant Agrees(ladders, old(ladders))
        invariant forall k | k in ladders && k in order[..i] :: ladders[k].Rung?
      {
        var k := order[i];
        assert order[..i + 1] == order[..i] + [k];
        if ladders[k].Alias? {
          var found := Get(k);
          if found.Err? {
            return Some(found.error);
          }
          ResolveOneAgrees(ladders, k, MaxDepth, old(ladders));
          ladders := ladders[k := Rung(found.value)];
        }
        i := i + 1;
      }
      assert order[..i] == order;
      return None;
    }

    /** `delta.native_unit()`: the first name assigned to the measure. */
    function NativeUnit(): (r: Result<string>)
      requires Valid()
      reads this
      ensures r.Ok? <==> ladders != map[]
      ensures r.Ok? ==> r.value in ladders && r.value == order[0]
      ensures r.Err? ==> r.error == StopIteration
    {
      EmptyOrder(ladders, order);
      if order == [] then Err(StopIteration)
      else Ok(order[0])
    }

    /**
     * `delta[item]` for a textual item: leading amounts multiply, and the
     * rest names a ladder whose scale is the unit's size.
     */
    function DeltaScale(item: string): (r: Result<real>)
      reads this
      decreases |item|
      ensures !HasAmount(item) ==> r == (match Get(item) case Ok(l) => Ok(l.scale) case Err(e) => Err(e))
    {
      match SplitAmountArgs(item, None)
      case Err(e) => Err(e)
      case Ok((a, rest)) =>
        if a.Some? then
          match DeltaScale(rest)
          case Ok(x) => Ok(Mul(a.value, x))
          case Err(e) => Err(e)
        else
          match Get(item)
          case Ok(l) => Ok(l.scale)
          case Err(e) => Err(e)
    }

    /** `item in delta`: membership of the name itself, with no amount split and no alias chase. */
    predicate DeltaContains(item: string)
      reads this
    {
      item in ladders
    }
  }

  /** A leading amount scales the delta coefficient of the rest: "100 C" is a hundred times "C". */
  lemma DeltaAmountScales(l: LinearMeasure, item: string, a: real, rest: string)
    requires SplitAmountArgs(item, None) == Ok((Some(a), rest))
    ensures l.DeltaScale(item).Ok? <==> l.DeltaScale(rest).Ok?
    ensures l.DeltaScale(item).Ok? ==> l.DeltaScale(item).value == Mul(a, l.DeltaScale(rest).value)
  {
  }
}
