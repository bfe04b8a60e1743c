/**
 * Primitive measures and the derived measures built from them: a derived
 * measure is a product of primitives raised to non-zero integer powers, with
 * its own table of aliases, and it looks composite unit strings up by
 * assigning each of their unit names to one of its parts.
 */
module Derived {
  import opened Base
  import opened Util
  import opened Basic
  import opened Linear
  import opened Composite

  /**
   * A primitive measure: a `BasicMeasure`, or the delta view of a
   * `LinearMeasure` (each linear measure has exactly one, so the owner stands
   * for it).
   */
  datatype Prim = BasicPrim(basic: BasicMeasure) | DeltaPrim(linear: LinearMeasure) {

    function Obj(): object {
      match this
      case BasicPrim(b) => b
      case DeltaPrim(l) => l
    }

    /** `str(p)`: the name of a basic measure, "<name>_delta" for a delta view. */
    function Name(): string {
      match this
      case BasicPrim(b) => b.name
      case DeltaPrim(l) => l.name + "_delta"
    }

    ghost predicate Valid()
      reads Obj()
    {
      match this
      case BasicPrim(b) => b.Valid()
      case DeltaPrim(l) => l.Valid()
    }

    /** The names `name in p` accepts: the keys of the unit table, or of the shared ladder table. */
    function Names(): set<string>
      reads Obj()
    {
      match this
      case BasicPrim(b) => b.units.Keys
      case DeltaPrim(l) => l.ladders.Keys
    }

    /** `p[name]` for a textual name: a coefficient, or a ladder's scale. */
    function Get(unit: string): Result<real>
      reads Obj()
    {
      match this
      case BasicPrim(b) => b.Get(unit)
      case DeltaPrim(l) => l.DeltaScale(unit)
    }

    /** `p.native_unit()`: the first name assigned, StopIteration when there is none. */
    function NativeUnit(): (r: Result<string>)
      reads Obj()
      ensures Valid() ==> (r.Ok? <==> Names() != {})
      ensures Valid() && r.Ok? ==> r.value in Names()
      ensures r.Err? ==> r.error == StopIteration
    {
      match this
      case BasicPrim(b) =>
        if b.order == [] then Err(StopIteration)
        else Ok(b.order[0])
      case DeltaPrim(l) =>
        if l.order == [] then Err(StopIteration)
        else Ok(l.order[0])
    }
  }

  /** No part is raised to the power 0 (a Counter built by combine_maps never holds one). */
  ghost predicate NoZero(vals: map<Prim, int>) {
    forall p | p in vals :: vals[p] != 0
  }

  /**
   * The factorisations `DerivedMeasure.__new__` keeps as derived measures:
   * not empty (that is the scalar measure) and not one part to the power 1
   * (that is the part itself).
   */
  predicate Irreducible(parts: OMap<Prim>) {
    |parts.keys| >= 2 || (|parts.keys| == 1 && parts.Get(parts.keys[0], 0) != 1)
  }

  /** A value of `_aliases`: another unit string, or a factor and a unit string. */
  datatype DerivedAlias = TextAlias(target: string) | ScaledAlias(factor: real, target: string)

  /** The exception a rejected match wraps. */
  function FailureError(f: Failure<Prim>): (e: Error)
    ensures f.Unparsable? ==> e == ParseError(f.text)
    ensures f.NoUnit? ==> e == KeyError(f.name)
    ensures f.Leftover? ==> e == Unassigned(f.prim.Name())
  {
    match f
    case Unparsable(t) => ParseError(t)
    case NoUnit(n) => KeyError(n)
    case Leftover(p) => Unassigned(p.Name())
  }

  /** `x ** n` for a whole number `n >= 0`. */
  function RealPow(x: real, n: nat): real {
    if n == 0 then 1.0 else x * RealPow(x, n - 1)
  }

  lemma {:induction false} RealPowNonZero(x: real, n: nat)
    requires x != 0.0
    ensures RealPow(x, n) != 0.0
  {
    if n > 0 {
      RealPowNonZero(x, n - 1);
    }
  }

  /** `x ** n` for an integer `n`: a negative power of zero divides by zero. */
  function IntPower(x: real, n: int): (r: Result<real>)
    ensures r.Err? <==> n < 0 && x == 0.0
    ensures r.Err? ==> r.error == ZeroDivision
    ensures r.Ok? && n < 0 ==> r.value * RealPow(x, -n) == 1.0
  {
    if n >= 0 then Ok(RealPow(x, n))
    else if x == 0.0 then Err(ZeroDivision)
    else
      RealPowNonZero(x, -n);
      Ok(1.0 / RealPow(x, -n))
  }

  /** What an assignment list reads: the tables of the parts it names. */
  function Tables(asg: seq<Assignment<Prim>>): set<object> {
    set a | a in asg :: a.prim.Obj()
  }

  /** `k[m] ** n` for one assignment (k, n, m). */
  function Factor(a: Assignment<Prim>): Result<real>
    reads a.prim.Obj()
  {
    match a.prim.Get(a.name)
    case Err(e) => Err(e)
    case Ok(x) => IntPower(x, a.power)
  }

  /** Each assignment's `k[m] ** n`, in order. */
  function Factors(asg: seq<Assignment<Prim>>): (fs: seq<Result<real>>)
    reads Tables(asg)
    ensures |fs| == |asg|
  {
    if asg == [] then []
    else
      assert asg[0] in asg;
      assert Tables(asg[1..]) <= Tables(asg) by {
        forall a | a in asg[1..] ensures a in asg { }
      }
      [Factor(asg[0])] + Factors(asg[1..])
  }

  lemma {:induction false} FactorAt(asg: seq<Assignment<Prim>>, i: nat)
    requires i < |asg|
    ensures Factors(asg)[i] == Factor(asg[i])
  {
    if i > 0 {
      FactorAt(asg[1..], i - 1);
    }
  }

  /**
   * `factor *= x` over the factors in order, starting from `acc`; the first
   * factor that failed is the result.
   */
  function MultiplyFrom(acc: real, fs: seq<Result<real>>): Result<real>
    decreases |fs|
  {
    if |fs| == 0 then Ok(acc)
    else if fs[0].Err? then Err(fs[0].error)
    else MultiplyFrom(Mul(acc, fs[0].value), fs[1..])
  }

  /** The value of an assignment list: the product of its factors, from 1. */
  function ProductOf(asg: seq<Assignment<Prim>>): Result<real>
    reads Tables(asg)
  {
    MultiplyFrom(1.0, Factors(asg))
  }

  /** The product fails exactly when some factor does, and then with the first failure. */
  lemma {:induction false} MultiplyFromFails(acc: real, fs: seq<Result<real>>)
    ensures MultiplyFrom(acc, fs).Err? <==> exists i | 0 <= i < |fs| :: fs[i].Err?
    ensures MultiplyFrom(acc, fs).Err? ==>
      exists i | 0 <= i < |fs| :: fs[i].Err? && MultiplyFrom(acc, fs).error == fs[i].error
        && forall j | 0 <= j < i :: fs[j].Ok?
    decreases |fs|
  {
    if |fs| > 0 {
      if fs[0].Ok? {
        MultiplyFromFails(Mul(acc, fs[0].value), fs[1..]);
        forall i | 1 <= i < |fs| ensures fs[i] == fs[1..][i - 1] { }
        if MultiplyFrom(acc, fs).Err? {
          var k :| 0 <= k < |fs[1..]| && fs[1..][k].Err? && MultiplyFrom(acc, fs).error == fs[1..][k].error
            && forall j | 0 <= j < k :: fs[1..][j].Ok?;
          assert fs[k + 1].Err? && forall j | 0 <= j < k + 1 :: fs[j].Ok?;
        }
      }
    }
  }

  /** One turn of the product loop: the next factor either fails the product or multiplies it. */
  lemma MultiplyStep(fs: seq<Result<real>>, i: nat, factor: real)
    requires i < |fs|
    ensures MultiplyFrom(factor, fs[i..]) ==
      if fs[i].Err? then Err(fs[i].error) else MultiplyFrom(Mul(factor, fs[i].value), fs[i + 1..])
  {
    var rest := fs[i..];
    assert rest[0] == fs[i];
    assert rest[1..] == fs[i + 1..];
  }

  /** The product loop of `DerivedMeasure.__getitem__`. */
  method Product(asg: seq<Assignment<Prim>>) returns (r: Result<real>)
    ensures r == ProductOf(asg)
  {
    var fs := Factors(asg);
    assert fs[0..] == fs;
    var factor := 1.0;
    var i := 0;
    while i < |fs|
      invariant 0 <= i <= |fs|
      invariant MultiplyFrom(factor, fs[i..]) == ProductOf(asg)
    {
      var y := fs[i];
      MultiplyStep(fs, i, factor);
      if y.Err? {
        return Err(y.error);
      }
      factor := Mul(factor, y.value);
      i := i + 1;
    }
    return Ok(factor);
  }

  /**
   * The numerator's and the denominator's terms of `native_unit`, part by
   * part in insertion order: a part with power n > 0 is "unit**n" above the
   * line, one with power n < 0 is "unit**-n" below it, where unit is the
   * part's native unit.
   */
  function NativeTerms(keys: seq<Prim>, vals: map<Prim, int>): Result<(seq<Token>, seq<Token>)>
    reads set p | p in keys :: p.Obj()
  {
    if keys == [] then Ok(([], []))
    else
      var p := keys[|keys| - 1];
      var init := keys[..|keys| - 1];
      assert (set q | q in init :: q.Obj()) <= (set q | q in keys :: q.Obj()) by {
        forall q | q in init ensures q in keys { }
      }
      match NativeTerms(init, vals)
      case Err(e) => Err(e)
      case Ok((pos, neg)) =>
        var n := if p in vals then vals[p] else 0;
        match p.NativeUnit()
        case Err(e) => Err(e)
        case Ok(u) =>
          if n > 0 then Ok((pos + [Token(u, n)], neg)) else Ok((pos, neg + [Token(u, -n)]))
  }

  /** Once a prefix of the parts fails, the whole of `native_unit` fails the same way. */
  lemma {:induction false} NativeTermsFailsEarly(keys: seq<Prim>, vals: map<Prim, int>, j: nat)
    requires j <= |keys| && NativeTerms(keys[..j], vals).Err?
    ensures NativeTerms(keys, vals) == NativeTerms(keys[..j], vals)
    decreases |keys| - j
  {
    if j < |keys| {
      assert keys[..j + 1][..j] == keys[..j];
      NativeTermsFailsEarly(keys, vals, j + 1);
    } else {
      assert keys[..j] == keys;
    }
  }

  /** One turn of the `native_unit` loop. */
  lemma NativeTermsStep(keys: seq<Prim>, vals: map<Prim, int>, i: nat, pos: seq<Token>, neg: seq<Token>)
    requires i < |keys| && NativeTerms(keys[..i], vals) == Ok((pos, neg))
    ensures keys[i].NativeUnit().Err? ==> NativeTerms(keys, vals) == Err(keys[i].NativeUnit().error)
    ensures keys[i].NativeUnit().Ok? ==>
      var u := keys[i].NativeUnit().value;
      var n := if keys[i] in vals then vals[keys[i]] else 0;
      NativeTerms(keys[..i + 1], vals) ==
        if n > 0 then Ok((pos + [Token(u, n)], neg)) else Ok((pos, neg + [Token(u, -n)]))
  {
    assert keys[..i + 1][..i] == keys[..i];
    if keys[i].NativeUnit().Err? {
      NativeTermsFailsEarly(keys, vals, i + 1);
    }
  }

  /** Native units of the parts are unit names the composite grammar can read back. */
  ghost predicate Spellable(keys: seq<Prim>)
    reads set p | p in keys :: p.Obj()
  {
    forall p | p in keys :: p.NativeUnit().Ok? ==> WellFormed(Token(p.NativeUnit().value, 1))
  }

  /**
   * A derived measure's terms are well formed: each names a part's native
   * unit, with the magnitude of the part's (non-zero) power.
   */
  lemma {:induction false} NativeTermsWellFormed(keys: seq<Prim>, vals: map<Prim, int>)
    requires NoZero(vals) && forall p | p in keys :: p in vals
    requires Spellable(keys)
    requires NativeTerms(keys, vals).Ok?
    ensures var (pos, neg) := NativeTerms(keys, vals).value;
      forall t | t in pos + neg :: WellFormed(t)
  {
    if keys != [] {
      var init := keys[..|keys| - 1];
      var p := keys[|keys| - 1];
      assert forall q | q in init :: q in keys;
      NativeTermsWellFormed(init, vals);
      var u := p.NativeUnit().value;
      assert WellFormed(Token(u, 1));
    }
  }

  /** `DerivedMeasure`: a factorisation into primitive parts, with its aliases and optional name. */
  class DerivedMeasure {
    /** How `__getitem__` splits a leading amount off an item: `SplitLeading`. */
    const split: Splitter
    var parts: OMap<Prim>
    var aliases: map<string, DerivedAlias>
    var name: Option<string>

    ghost predicate Valid()
      reads this
    {
      parts.Valid() && NoZero(parts.vals) && Irreducible(parts)
    }

    /** `__init__(parts)`: no aliases, no name. */
    constructor(parts: OMap<Prim>)
      ensures this.parts == parts && aliases == map[] && name == None && split == SplitLeading
    {
      split := SplitLeading;
      this.parts := parts;
      aliases := map[];
      name := None;
    }

    /** `__init__` run again on an object `__new__` took from the cache. */
    method Reinit(parts: OMap<Prim>)
      modifies this
      ensures this.parts == parts && aliases == map[] && name == None
    {
      this.parts := parts;
      aliases := map[];
      name := None;
    }

    /** `self[key] = value` for a unit name: a new or replaced alias. */
    method SetAlias(key: string, value: DerivedAlias)
      modifies this
      ensures aliases == old(aliases)[key := value]
      ensures parts == old(parts) && name == old(name)
    {
      aliases := aliases[key := value];
    }

    /** `self[:] = value`: the measure's display name. */
    method SetName(value: string)
      modifies this
      ensures name == Some(value)
      ensures parts == old(parts) && aliases == old(aliases)
    {
      name := Some(value);
    }

    /** The unit tables of the parts. */
    function Objects(): set<object>
      reads this
    {
      set p | p in parts.vals :: p.Obj()
    }

    /** Which names each part knows. */
    function Known(): map<Prim, set<string>>
      reads this, Objects()
    {
      map p | p in parts.vals :: p.Names()
    }

    /**
     * `self.__contains__(item)` for an item that is not an alias: parse it and
     * assign its unit names to the parts, under the rule as written, which
     * fits a token to a part whose remaining power is at least the token's
     * signed power and refuses only a part whose power is left positive.
     */
    function MatchItem(item: string): Outcome<Prim>
      reads this, Objects()
    {
      Match(AsWritten, item, parts, Known())
    }

    /** The loops of `__contains__` and `_assign_measurements`, run on the live tables. */
    method Assign(item: string) returns (o: Outcome<Prim>)
      ensures o == MatchItem(item)
    {
      var known := map p | p in parts.vals :: p.Names();
      o := MatchString(AsWritten, item, parts, known);
      assert known == Known();
    }

    /**
     * `item in self`: an alias is looked through (a text alias is unpacked as
     * a pair, which only a two-character string survives); otherwise the
     * match decides, and an empty assignment list is false. A plain item
     * always gets an answer, since the match wraps its failures; only an
     * alias chain can raise.
     */
    function In(item: string, fuel: nat): (r: Result<bool>)
      reads this, Objects()
      ensures item !in aliases ==> r.Ok?
      ensures r.Err? ==> r.error == RecursionLimit || r.error.UnpackError?
      decreases fuel
    {
      if item in aliases then
        if fuel == 0 then Err(RecursionLimit)
        else match aliases[item]
          case ScaledAlias(_, t) => In(t, fuel - 1)
          case TextAlias(t) =>
            if |t| == 2 then In(t[1..], fuel - 1) else Err(UnpackError(|t|))
      else
        match MatchItem(item)
        case Assigned(asg) => Ok(asg != [])
        case Rejected(_) => Ok(false)
    }

    /**
     * `self[item]` for a textual item: a leading amount multiplies; an alias
     * scales the lookup of its target; otherwise the item must match, and its
     * value is the product of each assigned unit's coefficient raised to its
     * power. `fuel` bounds the recursion.
     */
    function GetSpec(item: string, fuel: nat): Result<real>
      reads this, Objects()
      decreases fuel
    {
      if fuel == 0 then Err(RecursionLimit)
      else match split(item)
        case Err(e) => Err(e)
        case Ok((a, rest)) =>
          if a.Some? then Times(a.value, GetSpec(rest, fuel - 1))
          else if item in aliases then
            match aliases[item]
            case TextAlias(t) => Times(1.0, GetSpec(t, fuel - 1))
            case ScaledAlias(f, t) => Times(f, GetSpec(t, fuel - 1))
          else
            MatchOwned(item);
            OutcomeValue(MatchItem(item))
    }

    /** Every part an outcome assigns a unit to is one of this measure's parts. */
    predicate Owned(o: Outcome<Prim>)
      reads this
    {
      o.Assigned? ==> forall a | a in o.assignments :: a.prim in parts.vals
    }

    lemma MatchOwned(item: string)
      ensures Owned(MatchItem(item))
    {
      if MatchItem(item).Assigned? {
        MatchKnown(AsWritten, item, parts, Known());
      }
    }

    /**
     * The last step of `self[item]`: a false wrapper raises its exception, an
     * empty assignment list is called (and cannot be), and otherwise the value
     * is the product of the assigned coefficients.
     */
    function OutcomeValue(o: Outcome<Prim>): Result<real>
      requires Owned(o)
      reads this, Objects()
    {
      match o
      case Rejected(w) => Err(FailureError(w.Call()))
      case Assigned(asg) =>
        if asg == [] then Err(TypeError("'list' object is not callable"))
        else
          assert Tables(asg) <= Objects();
          ProductOf(asg)
    }

    /** `self[item]` */
    method Get(item: string) returns (r: Result<real>)
      ensures r == GetSpec(item, MaxDepth)
    {
      r := GetFuel(item, MaxDepth);
    }

    method GetFuel(item: string, fuel: nat) returns (r: Result<real>)
      ensures r == GetSpec(item, fuel)
      decreases fuel
    {
      if fuel == 0 {
        return Err(RecursionLimit);
      }
      var s := split(item);
      if s.Err? {
        return Err(s.error);
      }
      var (a, rest) := s.value;
      if a.Some? {
        var x := GetFuel(rest, fuel - 1);
        return Times(a.value, x);
      }
      if item in aliases {
        match aliases[item] {
          case TextAlias(t) =>
            var x := GetFuel(t, fuel - 1);
            return Times(1.0, x);
          case ScaledAlias(f, t) =>
            var x := GetFuel(t, fuel - 1);
            return Times(f, x);
        }
      }
      r := LookupMatched(item);
    }

    /** The match and the product loop of `self[item]`. */
    method LookupMatched(item: string) returns (r: Result<real>)
      ensures Owned(MatchItem(item)) && r == OutcomeValue(MatchItem(item))
    {
      var o := Assign(item);
      MatchOwned(item);
      r := ResolveMatched(item, o);
    }

    /** The product loop run on the outcome of the match, which it leaves as it was. */
    method ResolveMatched(item: string, o: Outcome<Prim>) returns (r: Result<real>)
      requires o == MatchItem(item) && Owned(o)
      ensures Owned(MatchItem(item)) && r == OutcomeValue(MatchItem(item))
    {
      ghost var objs, known := Objects(), Known();
      assert o == Match(AsWritten, item, parts, known);
      r := Resolve(o);
      assert Objects() == objs by { assert unchanged(this); }
      assert Known() == known by { assert unchanged(objs); }
      assert MatchItem(item) == Match(AsWritten, item, parts, known);
    }

    /** The product loop of `self[item]`, after the match. */
    method Resolve(o: Outcome<Prim>) returns (r: Result<real>)
      requires Owned(o)
      ensures r == OutcomeValue(o)
    {
      if o.Rejected? {
        return Err(FailureError(o.reason.Call()));
      }
      if o.assignments == [] {
        return Err(TypeError("'list' object is not callable"));
      }
      r := Product(o.assignments);
    }

    /** `native_unit(compact)` as the part-by-part terms define it. */
    function NativeUnitSpec(compact: bool): Result<string>
      requires parts.Valid()
      reads this, Objects()
    {
      assert (set p | p in parts.keys :: p.Obj()) <= Objects() by {
        forall p | p in parts.keys ensures p in parts.vals { }
      }
      match NativeTerms(parts.keys, parts.vals)
        case Err(e) => Err(e)
        case Ok((pos, neg)) => Ok(Format(pos, neg, compact))
    }

    /** `native_unit(compact)`: the loop over the parts, then the joins. */
    method NativeUnit(compact: bool) returns (r: Result<string>)
      requires Valid()
      ensures r == NativeUnitSpec(compact)
    {
      var pos: seq<Token> := [];
      var neg: seq<Token> := [];
      var i := 0;
      while i < |parts.keys|
        invariant 0 <= i <= |parts.keys|
        invariant NativeTerms(parts.keys[..i], parts.vals) == Ok((pos, neg))
      {
        var p := parts.keys[i];
        NativeTermsStep(parts.keys, parts.vals, i, pos, neg);
        var n := if p in parts.vals then parts.vals[p] else 0;
        var u := p.NativeUnit();
        if u.Err? {
          return Err(u.error);
        }
        if n > 0 {
          pos := pos + [Token(u.value, n)];
        } else {
          neg := neg + [Token(u.value, -n)];
        }
        i := i + 1;
      }
      assert parts.keys[..i] == parts.keys;
      r := Ok(Format(pos, neg, compact));
    }

    // -------------------------------------------------------------------------
    // What a lookup means
    // -------------------------------------------------------------------------

    /**
     * A plain unit string that is not an alias is looked up as a
     * factorisation that may overshoot: the powers assigned to each part are
     * the part's own power minus a leftover that is at most zero (so
     * "meter" is a speed of Distance/Time, with time left at -1), each
     * assigned name is a unit that part has, and the value is the product of
     * their coefficients raised to their powers.
     */
    lemma LookupFactorises(item: string, fuel: nat)
      requires Valid()
      requires split(item) == Ok((None, item)) && item !in aliases
      requires GetSpec(item, fuel).Ok?
      ensures MatchItem(item).Assigned?
      ensures var asg := MatchItem(item).assignments;
        && asg != []
        && (forall p | p in parts.vals :: parts.vals[p] - Total(asg, p) <= 0)
        && (forall a | a in asg :: a.prim in parts.vals && a.name in a.prim.Names())
        && ProductOf(asg) == GetSpec(item, fuel)
    {
      var (pos, neg) := Parse(item).value;
      assert MatchTokens(AsWritten, pos, neg, parts, Known()).Assigned?;
      MatchTokensWritten(pos, neg, parts, Known());
    }

    /** A plain unit string whose lookup succeeds is in the measure. */
    lemma FoundIsIn(item: string, fuel: nat, f: nat)
      requires split(item) == Ok((None, item)) && item !in aliases
      requires GetSpec(item, fuel).Ok?
      ensures In(item, f) == Ok(true)
    {
    }

    /**
     * A plain unit string the match refuses is not in the measure, and its
     * lookup raises the exception the false wrapper carries.
     */
    lemma RefusedRaises(item: string, fuel: nat, f: nat)
      requires fuel > 0 && split(item) == Ok((None, item)) && item !in aliases
      requires MatchItem(item).Rejected?
      ensures In(item, f) == Ok(false)
      ensures GetSpec(item, fuel) == Err(FailureError(MatchItem(item).reason.v))
    {
    }

    /**
     * With unit names the grammar can spell, `native_unit` reads back as its
     * own terms: the numerator holds the parts with positive powers and the
     * denominator the others, in insertion order.
     */
    lemma NativeUnitReadsBack(compact: bool)
      requires Valid() && Spellable(parts.keys)
      requires NativeUnitSpec(compact).Ok?
      ensures var (pos, neg) := NativeTerms(parts.keys, parts.vals).value;
        Parse(NativeUnitSpec(compact).value) == Some((pos, neg))
    {
      NativeTermsWellFormed(parts.keys, parts.vals);
      var (pos, neg) := NativeTerms(parts.keys, parts.vals).value;
      FormatParses(pos, neg, compact);
    }
  }
}
