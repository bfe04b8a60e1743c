/**
 * The algebra of measures: every measure factorises into primitive measures
 * raised to non-zero integer powers; `*`, `/` and `**` combine those
 * exponent maps, and `DerivedMeasure.__new__` turns an exponent map back
 * into a measure, interning compound ones in a process-wide table so that
 * equal factorisations give the very same object.
 */
module Algebra {
  import opened Base
  import opened Util
  import opened Basic
  import opened Linear
  import opened Derived

  /** A measure: the scalar singleton, a primitive, or a derived measure object. */
  datatype Measure = Scalar | Primitive(prim: Prim) | Compound(derived: DerivedMeasure) {

    /** The object whose fields `__primitives__` reads. */
    function Objs(): set<object> {
      if Compound? then {derived} else {}
    }

    /** `__primitives__()`: the factorisation as an ordered Counter. */
    function Primitives(): OMap<Prim>
      reads Objs()
    {
      match this
      case Scalar => EmptyMap()
      case Primitive(p) => OMap([p], map[p := 1])
      case Compound(d) => d.parts
    }

    /** The exponent of `p` in the factorisation (0 when `p` does not occur). */
    function Power(p: Prim): int
      reads Objs()
    {
      Primitives().Get(p, 0)
    }

    /** A derived measure keeps a factorisation `__new__` would not have turned into a scalar or a primitive. */
    ghost predicate Canonical()
      reads Objs()
    {
      Compound? ==> derived.Valid()
    }
  }

  /** A canonical measure's factorisation is well formed and holds no zero exponent. */
  lemma CanonicalPrimitives(m: Measure)
    requires m.Canonical()
    ensures m.Primitives().Valid() && NoZero(m.Primitives().vals)
  {
  }

  // ---------------------------------------------------------------------------
  // The exponent arithmetic of `*`, `/`, `**` and `root`
  // ---------------------------------------------------------------------------

  /** `lambda x, y: x - y` */
  function Difference(args: seq<int>): int {
    if |args| < 2 then 0 else args[0] - args[1]
  }

  /** A real with no fractional part. */
  predicate Integral(x: real) {
    x.Floor as real == x
  }

  /** `lambda x: x * power`, for a `power` that leaves every exponent whole. */
  function ScaledBy(power: real): seq<int> -> int {
    args => if args == [] then 0 else Rescaled(args[0], power)
  }

  /** One exponent times `power`, rounded down. */
  function Rescaled(e: int, power: real): int {
    Mul(e as real, power).Floor
  }

  /** `lambda x: x / r` for an `r` that divides every exponent. */
  function DividedBy(r: int): seq<int> -> int {
    args => if args == [] || r == 0 then 0 else args[0] / r
  }

  /**
   * With default 0, a merged map holds at every key exactly `func` of the
   * per-map exponents, as long as `func` maps all-zero exponents to 0.
   */
  lemma Pointwise(func: seq<int> -> int, maps: seq<OMap<Prim>>)
    requires forall i :: 0 <= i < |maps| ==> maps[i].Valid()
    requires func(seq(|maps|, i => 0)) == 0
    ensures Combined(func, maps, 0).Valid() && NoZero(Combined(func, maps, 0).vals)
    ensures forall k :: Combined(func, maps, 0).Get(k, 0) == func(Args(maps, k, 0))
  {
    CombinedSpec(func, maps, 0);
    var r := Combined(func, maps, 0);
    forall k
      ensures r.Get(k, 0) == func(Args(maps, k, 0))
    {
      if k !in r.vals && !(exists i :: 0 <= i < |maps| && k in maps[i].vals) {
        assert Args(maps, k, 0) == seq(|maps|, i => 0);
      }
    }
  }

  /** `self * other`: exponents add. */
  function ProductMap(a: OMap<Prim>, b: OMap<Prim>): OMap<Prim> {
    Combined(Sum, [a, b], 0)
  }

  /** `self / other`: exponents subtract. */
  function QuotientMap(a: OMap<Prim>, b: OMap<Prim>): OMap<Prim> {
    Combined(Difference, [a, b], 0)
  }

  /** `self ** power`: exponents scale. */
  function PowerMap(a: OMap<Prim>, power: real): OMap<Prim> {
    Combined(ScaledBy(power), [a], 0)
  }

  /** Every exponent times `power` is whole, so the scaled factorisation is again one of integers. */
  predicate WholePowers(a: OMap<Prim>, power: real) {
    forall p | p in a.vals :: Integral(Mul(a.vals[p] as real, power))
  }

  /** `root(r)` once every exponent is divisible by `r`: exponents divide. */
  function RootMap(a: OMap<Prim>, r: int): OMap<Prim> {
    Combined(DividedBy(r), [a], 0)
  }

  lemma ProductPowers(a: OMap<Prim>, b: OMap<Prim>)
    requires a.Valid() && b.Valid()
    ensures ProductMap(a, b).Valid() && NoZero(ProductMap(a, b).vals)
    ensures forall p :: ProductMap(a, b).Get(p, 0) == a.Get(p, 0) + b.Get(p, 0)
  {
    assert Sum(seq(2, i => 0)) == 0 by {
      assert seq(2, i => 0) == [0, 0];
    }
    Pointwise(Sum, [a, b]);
    forall p ensures Sum(Args([a, b], p, 0)) == a.Get(p, 0) + b.Get(p, 0) {
      var xs := Args([a, b], p, 0);
      assert xs[1..] == [b.Get(p, 0)];
      assert xs[1..][1..] == [];
    }
  }

  lemma QuotientPowers(a: OMap<Prim>, b: OMap<Prim>)
    requires a.Valid() && b.Valid()
    ensures QuotientMap(a, b).Valid() && NoZero(QuotientMap(a, b).vals)
    ensures forall p :: QuotientMap(a, b).Get(p, 0) == a.Get(p, 0) - b.Get(p, 0)
  {
    Pointwise(Difference, [a, b]);
  }

  lemma PowerPowers(a: OMap<Prim>, power: real)
    requires a.Valid() && WholePowers(a, power)
    ensures PowerMap(a, power).Valid() && NoZero(PowerMap(a, power).vals)
    ensures forall p :: PowerMap(a, power).Get(p, 0) as real == Mul(a.Get(p, 0) as real, power)
  {
    forall p ensures Rescaled(a.Get(p, 0), power) as real == Mul(a.Get(p, 0) as real, power) {
      if p in a.vals {
        ScaledExponent(power, a.vals[p]);
      } else {
        ScaledExponent(power, 0);
      }
    }
    assert ScaledBy(power)(seq(1, i => 0)) == 0 by {
      ScaledExponent(power, 0);
    }
    Pointwise(ScaledBy(power), [a]);
    forall p ensures PowerMap(a, power).Get(p, 0) == Rescaled(a.Get(p, 0), power) {
      assert Args([a], p, 0) == [a.Get(p, 0)];
    }
  }

  lemma ScaledExponent(power: real, e: int)
    requires e == 0 || Integral(Mul(e as real, power))
    ensures Rescaled(e, power) as real == Mul(e as real, power)
  {
    if e == 0 {
      assert Mul(e as real, power) == 0.0;
    }
  }

  lemma RootPowers(a: OMap<Prim>, r: int)
    requires a.Valid() && r != 0
    requires forall p | p in a.vals :: a.vals[p] % r == 0
    ensures RootMap(a, r).Valid() && NoZero(RootMap(a, r).vals)
    ensures forall p :: RootMap(a, r).Get(p, 0) * r == a.Get(p, 0)
  {
    Pointwise(DividedBy(r), [a]);
    forall p ensures RootMap(a, r).Get(p, 0) * r == a.Get(p, 0) {
      if p in a.vals {
        var x := a.vals[p];
        assert x % r == 0;
        assert (x / r) * r == x;
      }
    }
  }

  /** Two factorisations without zero exponents that agree on every exponent are the same map. */
  lemma SamePowersSameMap(a: map<Prim, int>, b: map<Prim, int>)
    requires NoZero(a) && NoZero(b)
    requires forall k :: (if k in a then a[k] else 0) == (if k in b then b[k] else 0)
    ensures a == b
  {
    forall k | k in a ensures k in b && a[k] == b[k] {
      assert (if k in a then a[k] else 0) == (if k in b then b[k] else 0);
    }
    forall k | k in b ensures k in a {
      assert (if k in a then a[k] else 0) == (if k in b then b[k] else 0);
    }
  }

  /** Squaring keeps every exponent whole. */
  lemma SquareIsWhole(a: OMap<Prim>)
    ensures WholePowers(a, 2.0)
    ensures forall p | p in a.vals :: Rescaled(a.vals[p], 2.0) == 2 * a.vals[p]
  {
    forall p | p in a.vals
      ensures Integral(Mul(a.vals[p] as real, 2.0)) && Rescaled(a.vals[p], 2.0) == 2 * a.vals[p]
    {
      var e := a.vals[p];
      assert Mul(e as real, 2.0) == (2 * e) as real;
    }
  }

  /** Two factorisations without zero exponents that agree on every exponent are the same. */
  lemma SameExponents(a: OMap<Prim>, b: OMap<Prim>)
    requires NoZero(a.vals) && NoZero(b.vals)
    requires forall p :: a.Get(p, 0) == b.Get(p, 0)
    ensures a.vals == b.vals
  {
    forall k ensures (if k in a.vals then a.vals[k] else 0) == (if k in b.vals then b.vals[k] else 0) {
      assert a.Get(k, 0) == b.Get(k, 0);
    }
    SamePowersSameMap(a.vals, b.vals);
  }

  /** The quotient of two factorisations depends on their exponents only, not on the order of their keys. */
  lemma SameVals(a: OMap<Prim>, a': OMap<Prim>, b: OMap<Prim>, b': OMap<Prim>)
    requires a.Valid() && a'.Valid() && b.Valid() && b'.Valid()
    requires a.vals == a'.vals && b.vals == b'.vals
    ensures QuotientMap(a, b).vals == QuotientMap(a', b').vals
  {
    QuotientPowers(a, b);
    QuotientPowers(a', b');
    var q, q' := QuotientMap(a, b), QuotientMap(a', b');
    SameExponents(q, q');
  }

  /** `QuotientTwice` for factorisations given up to the order of their keys. */
  lemma QuotientTwiceByVals(a: OMap<Prim>, a': OMap<Prim>, b: OMap<Prim>, b': OMap<Prim>)
    requires a.Valid() && a'.Valid() && b.Valid() && b'.Valid()
    requires a.vals == a'.vals && b.vals == b'.vals
    ensures QuotientMap(QuotientMap(a', b'), b').vals == QuotientMap(QuotientMap(a, b), b).vals
  {
    SameVals(a, a', b, b');
    QuotientPowers(a, b);
    QuotientPowers(a', b');
    SameVals(QuotientMap(a, b), QuotientMap(a', b'), b, b');
  }

  /** A Distance / Time / Time factorisation is the Distance / Time ** 2 one. */
  lemma QuotientTwice(a: OMap<Prim>, b: OMap<Prim>)
    requires a.Valid() && b.Valid()
    ensures WholePowers(b, 2.0)
    ensures QuotientMap(QuotientMap(a, b), b).vals == QuotientMap(a, PowerMap(b, 2.0)).vals
  {
    SquareIsWhole(b);
    PowerPowers(b, 2.0);
    var sq := PowerMap(b, 2.0);
    QuotientPowers(a, b);
    QuotientPowers(QuotientMap(a, b), b);
    QuotientPowers(a, sq);
    var lhs, rhs := QuotientMap(QuotientMap(a, b), b), QuotientMap(a, sq);
    forall p ensures lhs.Get(p, 0) == rhs.Get(p, 0) {
      Doubled(sq.Get(p, 0), b.Get(p, 0));
    }
    SameExponents(lhs, rhs);
  }

  lemma ProductAt(a: OMap<Prim>, b: OMap<Prim>, p: Prim)
    requires a.Valid() && b.Valid()
    ensures ProductMap(a, b).Valid() && ProductMap(a, b).Get(p, 0) == a.Get(p, 0) + b.Get(p, 0)
  {
    ProductPowers(a, b);
  }

  lemma QuotientAt(a: OMap<Prim>, b: OMap<Prim>, p: Prim)
    requires a.Valid() && b.Valid()
    ensures QuotientMap(a, b).Valid() && QuotientMap(a, b).Get(p, 0) == a.Get(p, 0) - b.Get(p, 0)
  {
    QuotientPowers(a, b);
  }

  lemma SquareAt(a: OMap<Prim>, p: Prim)
    requires a.Valid()
    ensures WholePowers(a, 2.0)
    ensures PowerMap(a, 2.0).Valid() && PowerMap(a, 2.0).Get(p, 0) == 2 * a.Get(p, 0)
  {
    SquareIsWhole(a);
    PowerPowers(a, 2.0);
    Doubled(PowerMap(a, 2.0).Get(p, 0), a.Get(p, 0));
  }

  /** The intermediate factorisations of Energy and of Force * Distance are well formed. */
  lemma EnergyTerms(mass: OMap<Prim>, distance: OMap<Prim>, time: OMap<Prim>)
    requires mass.Valid() && distance.Valid() && time.Valid()
    ensures WholePowers(distance, 2.0) && WholePowers(time, 2.0)
    ensures PowerMap(distance, 2.0).Valid() && PowerMap(time, 2.0).Valid()
    ensures ProductMap(mass, PowerMap(distance, 2.0)).Valid()
    ensures QuotientMap(distance, time).Valid() && QuotientMap(QuotientMap(distance, time), time).Valid()
    ensures ProductMap(mass, QuotientMap(QuotientMap(distance, time), time)).Valid()
    ensures NoZero(QuotientMap(ProductMap(mass, PowerMap(distance, 2.0)), PowerMap(time, 2.0)).vals)
    ensures NoZero(ProductMap(ProductMap(mass, QuotientMap(QuotientMap(distance, time), time)), distance).vals)
  {
    SquareIsWhole(distance);
    SquareIsWhole(time);
    PowerPowers(distance, 2.0);
    PowerPowers(time, 2.0);
    ProductPowers(mass, PowerMap(distance, 2.0));
    QuotientPowers(ProductMap(mass, PowerMap(distance, 2.0)), PowerMap(time, 2.0));
    QuotientPowers(distance, time);
    QuotientPowers(QuotientMap(distance, time), time);
    ProductPowers(mass, QuotientMap(QuotientMap(distance, time), time));
    ProductPowers(ProductMap(mass, QuotientMap(QuotientMap(distance, time), time)), distance);
  }

  /** Mass * Distance ** 2 / Time ** 2 factorises as Force * Distance with Force = Mass * (Distance / Time / Time). */
  lemma EnergyIsForceTimesDistance(mass: OMap<Prim>, distance: OMap<Prim>, time: OMap<Prim>)
    requires mass.Valid() && distance.Valid() && time.Valid()
    ensures WholePowers(distance, 2.0) && WholePowers(time, 2.0)
    ensures QuotientMap(ProductMap(mass, PowerMap(distance, 2.0)), PowerMap(time, 2.0)).vals
         == ProductMap(ProductMap(mass, QuotientMap(QuotientMap(distance, time), time)), distance).vals
  {
    SquareIsWhole(distance);
    SquareIsWhole(time);
    EnergyTerms(mass, distance, time);
    var energy := QuotientMap(ProductMap(mass, PowerMap(distance, 2.0)), PowerMap(time, 2.0));
    var work := ProductMap(ProductMap(mass, QuotientMap(QuotientMap(distance, time), time)), distance);
    forall p ensures energy.Get(p, 0) == work.Get(p, 0) {
      EnergyAt(mass, distance, time, p);
    }
    SameExponents(energy, work);
  }

  /** The two factorisations of energy agree on the exponent of one primitive. */
  lemma EnergyAt(mass: OMap<Prim>, distance: OMap<Prim>, time: OMap<Prim>, p: Prim)
    requires mass.Valid() && distance.Valid() && time.Valid()
    ensures WholePowers(distance, 2.0) && WholePowers(time, 2.0)
    ensures QuotientMap(ProductMap(mass, PowerMap(distance, 2.0)), PowerMap(time, 2.0)).Get(p, 0)
         == ProductMap(ProductMap(mass, QuotientMap(QuotientMap(distance, time), time)), distance).Get(p, 0)
  {
    SquareIsWhole(distance);
    SquareIsWhole(time);
    var d2, t2 := PowerMap(distance, 2.0), PowerMap(time, 2.0);
    var md2, speed := ProductMap(mass, d2), QuotientMap(distance, time);
    var acc := QuotientMap(speed, time);
    var force := ProductMap(mass, acc);
    EnergyTerms(mass, distance, time);
    calc {
      QuotientMap(md2, t2).Get(p, 0);
    == { QuotientAt(md2, t2, p); }
      md2.Get(p, 0) - t2.Get(p, 0);
    == { ProductAt(mass, d2, p); SquareAt(distance, p); SquareAt(time, p); }
      mass.Get(p, 0) + 2 * distance.Get(p, 0) - 2 * time.Get(p, 0);
    == { QuotientAt(distance, time, p); QuotientAt(speed, time, p); ProductAt(mass, acc, p); }
      force.Get(p, 0) + distance.Get(p, 0);
    == { ProductAt(force, distance, p); }
      ProductMap(force, distance).Get(p, 0);
    }
  }

  /** The exponents of a measure are read off its factorisation. */
  lemma PowersOf(m: Measure, parts: OMap<Prim>)
    requires m.Primitives().vals == parts.vals
    ensures forall p :: m.Power(p) == parts.Get(p, 0)
  {
  }

  // ---------------------------------------------------------------------------
  // DerivedMeasure.__new__ and its cache
  // ---------------------------------------------------------------------------

  /**
   * The class attribute `DerivedMeasure.cache`: one derived measure per
   * factorisation, keyed by the factorisation's (primitive, exponent) pairs.
   */
  class Registry {
    var cache: map<map<Prim, int>, DerivedMeasure>

    /** Every cached measure still holds the factorisation it is filed under. */
    ghost predicate Valid()
      reads this, cache.Values
    {
      forall k | k in cache :: cache[k].parts.vals == k && cache[k].Valid()
    }

    /** A derived measure is the one the cache files under its factorisation. */
    ghost predicate Interned(m: Measure)
      reads this, m.Objs()
    {
      m.Compound? ==> m.derived.parts.vals in cache && cache[m.derived.parts.vals] == m.derived
    }

    /** Every entry of `before` is still in the cache. */
    ghost predicate Extends(before: map<map<Prim, int>, DerivedMeasure>)
      reads this
    {
      forall k | k in before :: k in cache && cache[k] == before[k]
    }

    /** The cache keeps every entry of `before` and files only new objects beside them. */
    twostate predicate Grows(before: map<map<Prim, int>, DerivedMeasure>)
      reads this
    {
      && Extends(before)
      && forall k | k in cache && k !in before :: fresh(cache[k])
    }

    /** A measure interned under `k` stays interned under `k` while the cache only grows. */
    lemma Persists(x: Measure, k: map<Prim, int>, before: map<map<Prim, int>, DerivedMeasure>)
      requires Valid() && Extends(before)
      requires x.Compound? ==> k in before && before[k] == x.derived
      ensures Interned(x) && x.Canonical()
      ensures x.Compound? ==> x.Primitives().vals == k
    {
    }

    constructor()
      ensures Valid() && cache == map[]
    {
      cache := map[];
    }

    /**
     * `DerivedMeasure(parts)`: the scalar for no parts, the primitive itself
     * for a single part to the power 1, and otherwise the cached measure for
     * this factorisation, on which `__init__` runs again (its aliases and
     * name are reset), or a new measure that is cached.
     */
    method Intern(parts: OMap<Prim>) returns (m: Measure)
      requires Valid() && parts.Valid() && NoZero(parts.vals)
      modifies this, if parts.vals in cache then {cache[parts.vals]} else {}
      ensures Valid() && Interned(m) && m.Canonical()
      ensures Grows(old(cache))
      ensures m.Primitives().vals == parts.vals
      ensures m.Scalar? <==> parts.vals == map[]
      ensures m.Compound? <==> Irreducible(parts)
      ensures m.Compound? ==> m.derived.parts == parts && m.derived.aliases == map[] && m.derived.name == None
      ensures m.Compound? && parts.vals in old(cache) ==> m.derived == old(cache[parts.vals])
      ensures m.Compound? && parts.vals !in old(cache) ==> fresh(m.derived)
      ensures cache.Keys == old(cache.Keys) + (if m.Compound? then {parts.vals} else {})
    {
      if parts.keys == [] {
        return Scalar;
      }
      if |parts.keys| == 1 && parts.vals[parts.keys[0]] == 1 {
        var p := parts.keys[0];
        assert parts.vals == map[p := 1];
        return Primitive(p);
      }
      assert parts.keys[0] in parts.vals;
      var d := Cache(parts);
      m := Compound(d);
    }

    /** The cache lookup of `__new__`, then `__init__`, for a factorisation kept as a derived measure. */
    method Cache(parts: OMap<Prim>) returns (d: DerivedMeasure)
      requires Valid() && parts.Valid() && NoZero(parts.vals) && Irreducible(parts)
      modifies this, if parts.vals in cache then {cache[parts.vals]} else {}
      ensures Valid() && cache == old(cache)[parts.vals := d]
      ensures d.parts == parts && d.aliases == map[] && d.name == None
      ensures parts.vals in old(cache) ==> d == old(cache[parts.vals])
      ensures parts.vals !in old(cache) ==> fresh(d)
    {
      if parts.vals in cache {
        d := cache[parts.vals];
        d.Reinit(parts);
      } else {
        d := new DerivedMeasure(parts);
        cache := cache[parts.vals := d];
      }
    }
  
    /** `DerivedMeasure(parts)` computed from the operands `a` and `b`, which stay as they were. */
    method InternBeside(parts: OMap<Prim>, a: Measure, b: Measure) returns (m: Measure)
      requires Valid() && parts.Valid() && NoZero(parts.vals) && Interned(a) && Interned(b)
      modifies this, cache.Values
      ensures Valid() && Interned(m) && m.Canonical() && Grows(old(cache))
      ensures m.Primitives().vals == parts.vals
      ensures m.Compound? ==> m.derived.aliases == map[] && m.derived.name == None
      ensures Interned(a) && Interned(b) && a.Canonical() && b.Canonical()
      ensures a.Primitives().vals == old(a.Primitives().vals) && b.Primitives().vals == old(b.Primitives().vals)
    {
      ghost var ka, kb, before := a.Primitives().vals, b.Primitives().vals, cache;
      m := Intern(parts);
      Persists(a, ka, before);
      Persists(b, kb, before);
    }

    /** `self * other`: exponents add. */
    method Multiply(a: Measure, b: Measure) returns (m: Measure)
      requires Valid() && Interned(a) && Interned(b) && a.Canonical() && b.Canonical()
      modifies this, cache.Values
      ensures Valid() && Interned(m) && m.Canonical()
      ensures Grows(old(cache))
      ensures Interned(a) && Interned(b) && a.Canonical() && b.Canonical()
      ensures a.Primitives().vals == old(a.Primitives().vals) && b.Primitives().vals == old(b.Primitives().vals)
      ensures forall p :: m.Power(p) == a.Power(p) + b.Power(p)
      ensures m.Primitives().vals == ProductMap(old(a.Primitives()), old(b.Primitives())).vals
      ensures m.Compound? ==> m.derived.aliases == map[] && m.derived.name == None
    {
      var pa, pb := a.Primitives(), b.Primitives();
      var parts := CombineMaps(Sum, [pa, pb], 0);
      ProductPowers(pa, pb);
      m := InternBeside(parts, a, b);
      PowersOf(m, parts);
      PowersOf(a, pa);
      PowersOf(b, pb);
    }
  
    /** `self / other`: exponents subtract. */
    method Divide(a: Measure, b: Measure) returns (m: Measure)
      requires Valid() && Interned(a) && Interned(b) && a.Canonical() && b.Canonical()
      modifies this, cache.Values
      ensures Valid() && Interned(m) && m.Canonical()
      ensures Grows(old(cache))
      ensures Interned(a) && Interned(b) && a.Canonical() && b.Canonical()
      ensures a.Primitives().vals == old(a.Primitives().vals) && b.Primitives().vals == old(b.Primitives().vals)
      ensures forall p :: m.Power(p) == a.Power(p) - b.Power(p)
      ensures m.Primitives().vals == QuotientMap(old(a.Primitives()), old(b.Primitives())).vals
      ensures m.Compound? ==> m.derived.aliases == map[] && m.derived.name == None
    {
      var pa, pb := a.Primitives(), b.Primitives();
      var parts := CombineMaps(Difference, [pa, pb], 0);
      QuotientPowers(pa, pb);
      m := InternBeside(parts, a, b);
      PowersOf(m, parts);
      PowersOf(a, pa);
      PowersOf(b, pb);
    }

    /** `~self`: `ScalarMeasure() / self`, every exponent negated. */
    method Invert(a: Measure) returns (m: Measure)
      requires Valid() && Interned(a) && a.Canonical()
      modifies this, cache.Values
      ensures Valid() && Interned(m) && m.Canonical()
      ensures Grows(old(cache))
      ensures Interned(a) && a.Canonical() && a.Primitives().vals == old(a.Primitives().vals)
      ensures forall p :: m.Power(p) == -a.Power(p)
    {
      m := Divide(Scalar, a);
    }

    /** `other / self` for a number: only `1 / self` is defined, as `~self`. */
    method DivideInto(other: real, a: Measure) returns (r: Result<Measure>)
      requires Valid() && Interned(a) && a.Canonical()
      modifies this, cache.Values
      ensures Valid() && Interned(a) && a.Canonical() && a.Primitives().vals == old(a.Primitives().vals)
      ensures Grows(old(cache))
      ensures r.Err? <==> other != 1.0
      ensures r.Err? ==> r.error == NotInvertible && cache == old(cache)
      ensures r.Ok? ==> Interned(r.value) && r.value.Canonical() && forall p :: r.value.Power(p) == -a.Power(p)
    {
      if other != 1.0 {
        return Err(NotInvertible);
      }
      var m := Invert(a);
      r := Ok(m);
    }

    /**
     * `root(r)`: the scalar is its own root, a primitive only has the root 1,
     * and a derived measure has the root `r` when `r` divides every exponent.
     */
    method Root(a: Measure, n: int) returns (r: Result<Measure>)
      requires Valid() && Interned(a) && a.Canonical()
      modifies this, cache.Values
      ensures Valid() && Interned(a) && a.Canonical() && a.Primitives().vals == old(a.Primitives().vals)
      ensures Grows(old(cache))
      ensures r.Err? <==> RootCheck(a, n).Some?
      ensures r.Err? ==> r.error == RootCheck(a, n).value && cache == old(cache)
      ensures r.Ok? ==> Interned(r.value) && r.value.Canonical() && forall p :: r.value.Power(p) * n == a.Power(p)
    {
      match a
      case Scalar =>
        r := Ok(a);
      case Primitive(_) =>
        r := if n == 1 then Ok(a) else Err(RootError);
      case Compound(d) =>
        if n == 0 {
          return Err(ZeroDivision);
        }
        if !(forall p | p in d.parts.vals :: d.parts.vals[p] % n == 0) {
          return Err(RootError);
        }
        var m := RootCompound(a, n);
        r := Ok(m);
    }

    /** The root of a derived measure whose every exponent `n` divides. */
    method RootCompound(a: Measure, n: int) returns (m: Measure)
      requires Valid() && Interned(a) && a.Canonical() && a.Compound? && n != 0
      requires forall p | p in a.derived.parts.vals :: a.derived.parts.vals[p] % n == 0
      modifies this, cache.Values
      ensures Valid() && Interned(a) && a.Canonical() && a.Primitives().vals == old(a.Primitives().vals)
      ensures Grows(old(cache))
      ensures Interned(m) && m.Canonical() && forall p :: m.Power(p) * n == a.Power(p)
    {
      var pa := a.derived.parts;
      var parts := CombineMaps(DividedBy(n), [pa], 0);
      RootPowers(pa, n);
      m := InternBeside(parts, a, a);
      forall p ensures m.Power(p) * n == a.Power(p) {
        assert m.Power(p) == parts.Get(p, 0) && a.Power(p) == pa.Get(p, 0);
      }
    }

    /**
     * `self ** power`: a power whose inverse is a whole number other than
     * 0 and ±1 takes that root; any other power scales every exponent.
     */
    method Raise(a: Measure, power: real) returns (r: Result<Measure>)
      requires Valid() && Interned(a) && a.Canonical()
      modifies this, cache.Values
      ensures Valid() && Interned(a) && a.Canonical() && a.Primitives().vals == old(a.Primitives().vals)
      ensures Grows(old(cache))
      ensures r.Ok? ==> Interned(r.value) && r.value.Canonical()
      ensures r.Ok? ==> forall p :: r.value.Power(p) as real == Mul(a.Power(p) as real, power)
      ensures r.Ok? && !TakesRoot(power) ==> r.value.Primitives().vals == PowerMap(old(a.Primitives()), power).vals
      ensures TakesRoot(power) ==> (r.Err? <==> RootCheck(a, (1.0 / power).Floor).Some?)
      ensures !TakesRoot(power) ==> (r.Err? <==> !WholePowers(a.Primitives(), power))
      ensures r.Err? ==> cache == old(cache)
      ensures r.Err? ==> r.error == if TakesRoot(power) then RootCheck(a, (1.0 / power).Floor).value else FractionalPower
    {
      if TakesRoot(power) {
        r := RaiseByRoot(a, power);
        return;
      }
      if !WholePowers(a.Primitives(), power) {
        return Err(FractionalPower);
      }
      var m := RaiseWhole(a, power);
      r := Ok(m);
    }

    /** `self ** power` for a power `1/n`: the `n`th root. */
    method RaiseByRoot(a: Measure, power: real) returns (r: Result<Measure>)
      requires Valid() && Interned(a) && a.Canonical() && TakesRoot(power)
      modifies this, cache.Values
      ensures Valid() && Interned(a) && a.Canonical() && a.Primitives().vals == old(a.Primitives().vals)
      ensures Grows(old(cache))
      ensures r.Ok? ==> Interned(r.value) && r.value.Canonical()
      ensures r.Ok? ==> forall p :: r.value.Power(p) as real == Mul(a.Power(p) as real, power)
      ensures r.Err? <==> RootCheck(a, (1.0 / power).Floor).Some?
      ensures r.Err? ==> cache == old(cache) && r.error == RootCheck(a, (1.0 / power).Floor).value
    {
      var n := (1.0 / power).Floor;
      r := Root(a, n);
      if r.Ok? {
        forall p ensures r.value.Power(p) as real == Mul(a.Power(p) as real, power) {
          InverseRoot(r.value.Power(p), a.Power(p), n, power);
        }
      }
    }

    /** `self ** power` for a power that keeps every exponent whole: each exponent is scaled. */
    method RaiseWhole(a: Measure, power: real) returns (m: Measure)
      requires Valid() && Interned(a) && a.Canonical() && WholePowers(a.Primitives(), power)
      modifies this, cache.Values
      ensures Valid() && Interned(a) && a.Canonical() && a.Primitives().vals == old(a.Primitives().vals)
      ensures Grows(old(cache))
      ensures Interned(m) && m.Canonical()
      ensures forall p :: m.Power(p) as real == Mul(a.Power(p) as real, power)
      ensures m.Primitives().vals == PowerMap(old(a.Primitives()), power).vals
    {
      var pa := a.Primitives();
      var parts := CombineMaps(ScaledBy(power), [pa], 0);
      PowerPowers(pa, power);
      m := InternBeside(parts, a, a);
      PowersOf(m, parts);
      PowersOf(a, pa);
    }
  }

  /** `power not in [0, 1, -1] and (1 / power) % 1 == 0` */
  predicate TakesRoot(power: real) {
    power != 0.0 && power != 1.0 && power != -1.0 && Integral(1.0 / power)
  }

  /** Taking the root `1 / power` is raising to `power`. */
  lemma InverseRoot(x: int, y: int, n: int, power: real)
    requires power != 0.0 && n as real == 1.0 / power && x * n == y
    ensures x as real == Mul(y as real, power)
  {
    assert (x * n) as real == x as real * n as real;
    assert n as real * power == 1.0;
    calc {
      Mul(y as real, power);
      x as real * n as real * power;
      x as real * (n as real * power);
      x as real;
    }
  }

  /**
   * Why `root(r)` raises, if it does: a primitive has no root but 1, a
   * derived measure divides its exponents by `r` (ZeroDivisionError for 0)
   * and has no root that leaves a fraction.
   */
  function RootCheck(a: Measure, n: int): Option<Error>
    reads a.Objs()
  {
    match a
    case Scalar => None
    case Primitive(_) => if n == 1 then None else Some(RootError)
    case Compound(d) =>
      if n == 0 then Some(ZeroDivision)
      else if forall p | p in d.parts.vals :: d.parts.vals[p] % n == 0 then None
      else Some(RootError)
  }

  // ---------------------------------------------------------------------------
  // What the cache buys: a measure is determined by its exponents
  // ---------------------------------------------------------------------------

  /** The factorisation of a derived measure has a part other than a single power 1. */
  lemma IrreducibleShape(parts: OMap<Prim>, p: Prim)
    requires parts.Valid() && Irreducible(parts)
    ensures parts.vals != map[] && parts.vals != map[p := 1]
  {
    assert parts.keys[0] in parts.vals;
    if parts.vals == map[p := 1] && |parts.keys| >= 2 {
      KeysDistinct(parts, 0, 1);
      assert false;
    }
  }

  lemma KeysDistinct(parts: OMap<Prim>, i: int, j: int)
    requires parts.Valid() && 0 <= i < j < |parts.keys|
    ensures parts.keys[i] != parts.keys[j] && parts.keys[i] in parts.vals && parts.keys[j] in parts.vals
  {
  }

  /**
   * Measures `__new__` returned that agree on the exponent of every primitive
   * are one and the same: the scalar, the same primitive, or the very same
   * cached derived object (so `is` and `==` coincide for them).
   */
  lemma SamePowersSameMeasure(reg: Registry, a: Measure, b: Measure)
    requires reg.Interned(a) && reg.Interned(b) && a.Canonical() && b.Canonical()
    requires forall p :: a.Power(p) == b.Power(p)
    ensures a == b
  {
    var va, vb := a.Primitives().vals, b.Primitives().vals;
    forall p ensures (if p in va then va[p] else 0) == (if p in vb then vb[p] else 0) {
      assert a.Power(p) == b.Power(p);
    }
    SamePowersSameMap(va, vb);
    if a.Primitive? {
      assert a.prim in vb;
    }
    if b.Primitive? {
      assert b.prim in va;
    }
    match a
    case Scalar =>
      if b.Compound? {
        IrreducibleShape(b.derived.parts, b.derived.parts.keys[0]);
      }
    case Primitive(p) =>
      if b.Primitive? {
        assert b.prim in va;
      } else if b.Compound? {
        assert va == map[p := 1] && vb == b.derived.parts.vals;
        IrreducibleShape(b.derived.parts, p);
      }
    case Compound(d) =>
      if b.Primitive? {
        IrreducibleShape(d.parts, b.prim);
      } else if b.Scalar? {
        IrreducibleShape(d.parts, d.parts.keys[0]);
      }
  }

  lemma Doubled(x: int, y: int)
    requires x as real == Mul(y as real, 2.0)
    ensures x == 2 * y
  {
  }

  /** `SamePowersSameMeasure` for factorisations given as maps. */
  lemma SameFactorsSameMeasure(reg: Registry, a: Measure, b: Measure)
    requires reg.Interned(a) && reg.Interned(b) && a.Canonical() && b.Canonical()
    requires a.Primitives().vals == b.Primitives().vals
    ensures a == b
  {
    SamePowersSameMeasure(reg, a, b);
  }

  /**
   * `Distance / Time / Time is Distance / Time ** 2`: whatever the cache
   * holds, a measure with the factorisation of the first and a measure with
   * that of the second, both returned by `DerivedMeasure(...)`, are the same
   * object.
   */
  lemma DivideTwiceIsDivideBySquare(reg: Registry, distance: OMap<Prim>, time: OMap<Prim>,
                                    perSecondPerSecond: Measure, perSecondSquared: Measure)
    requires distance.Valid() && time.Valid()
    requires reg.Interned(perSecondPerSecond) && perSecondPerSecond.Canonical()
    requires reg.Interned(perSecondSquared) && perSecondSquared.Canonical()
    requires WholePowers(time, 2.0)
    requires perSecondPerSecond.Primitives().vals == QuotientMap(QuotientMap(distance, time), time).vals
    requires perSecondSquared.Primitives().vals == QuotientMap(distance, PowerMap(time, 2.0)).vals
    ensures perSecondPerSecond == perSecondSquared
  {
    QuotientTwice(distance, time);
    SameFactorsSameMeasure(reg, perSecondPerSecond, perSecondSquared);
  }

  /** `Mass * Distance ** 2 / Time ** 2 == Force * Distance`, as objects, for `Force = Mass * Acceleration`. */
  lemma EnergyIsForceTimesDistanceMeasure(reg: Registry, mass: OMap<Prim>, distance: OMap<Prim>, time: OMap<Prim>,
                                          energy: Measure, work: Measure)
    requires mass.Valid() && distance.Valid() && time.Valid()
    requires reg.Interned(energy) && energy.Canonical() && reg.Interned(work) && work.Canonical()
    requires WholePowers(distance, 2.0) && WholePowers(time, 2.0)
    requires energy.Primitives().vals == QuotientMap(ProductMap(mass, PowerMap(distance, 2.0)), PowerMap(time, 2.0)).vals
    requires work.Primitives().vals == ProductMap(ProductMap(mass, QuotientMap(QuotientMap(distance, time), time)), distance).vals
    ensures energy == work
  {
    EnergyIsForceTimesDistance(mass, distance, time);
    SameFactorsSameMeasure(reg, energy, work);
  }

  /** `first = l / t`, then `first[alias] = value` when the quotient is a derived measure. */
  method NamedQuotient(reg: Registry, l: Measure, t: Measure, alias: string, value: DerivedAlias)
      returns (first: Measure)
    requires reg.Valid() && reg.Interned(l) && reg.Interned(t) && l.Canonical() && t.Canonical()
    modifies reg, reg.cache.Values
    ensures reg.Valid() && reg.Interned(l) && reg.Interned(t) && l.Canonical() && t.Canonical()
    ensures reg.Interned(first) && first.Canonical() && reg.Grows(old(reg.cache))
    ensures l.Primitives().vals == old(l.Primitives().vals) && t.Primitives().vals == old(t.Primitives().vals)
    ensures first.Primitives().vals == QuotientMap(old(l.Primitives()), old(t.Primitives())).vals
    ensures first.Compound? ==> first.derived.aliases == map[alias := value]
  {
    first := reg.Divide(l, t);
    if first.Compound? {
      ghost var c := reg.cache;
      label Named:
      first.derived.SetAlias(alias, value);
      assert forall k | k in c :: c[k].parts == old@Named(c[k].parts);
    }
  }

  /**
   * Computing the same quotient a second time hands back the cached derived
   * measure, and the repeated `__init__` wipes the alias given to it in
   * between.
   */
  method RecomputedQuotient(reg: Registry, l: Measure, t: Measure, alias: string, value: DerivedAlias)
      returns (first: Measure, second: Measure)
    requires reg.Valid() && reg.Interned(l) && reg.Interned(t) && l.Canonical() && t.Canonical()
    modifies reg, reg.cache.Values
    ensures first == second
    ensures second.Compound? ==> second.derived.aliases == map[]
  {
    ghost var pl, pt := l.Primitives(), t.Primitives();
    first := NamedQuotient(reg, l, t, alias, value);
    ghost var powers, before, pl', pt' := first.Primitives().vals, reg.cache, l.Primitives(), t.Primitives();
    second := reg.Divide(l, t);
    reg.Persists(first, powers, before);
    SameVals(pl, pl', pt, pt');
    SameFactorsSameMeasure(reg, first, second);
  }
}
