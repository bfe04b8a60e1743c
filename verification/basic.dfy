/**
 * Basic measures: the atomic building blocks (distance, time, mass, ...). A
 * basic measure is a named, insertion-ordered table from unit names to the
 * unit's size in the measure's arbitrary unit, where an entry may also be an
 * alias of another unit, optionally scaled.
 */
module Basic {
  import opened Base
  import opened Util

  /** A table entry: a coefficient, the name of another unit, or a factor times another unit. */
  datatype UnitEntry = Coef(value: real) | Alias(target: string) | Scaled(factor: real, target: string)

  /**
   * `BasicMeasure.__getitem__` for a textual item on a table: a leading amount
   * (split off by `split`, which is `SplitLeading` in every measure) multiplies
   * the rest, aliases are chased, a missing name is a KeyError. Each recursive
   * step spends one unit of `fuel`. The lemmas below hold for any splitter.
   */
  function Lookup(split: Splitter, units: map<string, UnitEntry>, item: string, fuel: nat): (r: Result<real>)
    decreases fuel
  {
    if fuel == 0 then Err(RecursionLimit)
    else match split(item)
      case Err(e) => Err(e)
      case Ok((a, rest)) =>
        if a.Some? then
          Times(a.value, Lookup(split, units, rest, fuel - 1))
        else if item !in units then Err(KeyError(item))
        else match units[item]
          case Coef(c) => Ok(c)
          case Alias(t) => Lookup(split, units, t, fuel - 1)
          case Scaled(f, t) => Times(f, Lookup(split, units, t, fuel - 1))
  }

  /** `f * x` for a looked-up `x`, passing a failure through. */
  function Times(f: real, x: Result<real>): (r: Result<real>)
    ensures r.Ok? <==> x.Ok?
    ensures r.Ok? ==> r.value == f * x.value
    ensures r.Err? ==> r == x
  {
    match x
    case Ok(v) => Ok(f * v)
    case Err(e) => Err(e)
  }

  /** A leading amount scales the lookup of the rest: "3 km" is three times "km". */
  lemma AmountScales(split: Splitter, units: map<string, UnitEntry>, item: string, fuel: nat, a: real, rest: string)
    requires fuel > 0
    requires split(item) == Ok((Some(a), rest))
    ensures Lookup(split, units, item, fuel).Ok? <==> Lookup(split, units, rest, fuel - 1).Ok?
    ensures Lookup(split, units, item, fuel).Ok? ==> Lookup(split, units, item, fuel).value == a * Lookup(split, units, rest, fuel - 1).value
  {
  }

  /** An amount before a unit that is a plain number scales that number. */
  lemma AmountOfCoefficient(split: Splitter, units: map<string, UnitEntry>, item: string, fuel: nat,
                            a: real, unit: string, c: real)
    requires fuel > 1
    requires split(item) == Ok((Some(a), unit)) && split(unit) == Ok((None, unit))
    requires unit in units && units[unit] == Coef(c)
    ensures Lookup(split, units, item, fuel) == Ok(Mul(a, c))
  {
    assert Lookup(split, units, unit, fuel - 1) == Ok(c);
    assert Lookup(split, units, item, fuel) == Times(a, Ok(c));
    assert Times(a, Ok(c)).value == a * c == Mul(a, c);
  }

  /** Once a lookup completes, more depth does not change its answer. */
  lemma {:induction false} LookupFuel(split: Splitter, units: map<string, UnitEntry>, item: string, f1: nat, f2: nat)
    requires Lookup(split, units, item, f1) != Err(RecursionLimit)
    requires Lookup(split, units, item, f2) != Err(RecursionLimit)
    ensures Lookup(split, units, item, f1) == Lookup(split, units, item, f2)
    decreases f1
  {
    match split(item)
    case Err(_) =>
    case Ok((a, rest)) =>
      if a.Some? {
        LookupFuel(split, units, rest, f1 - 1, f2 - 1);
      } else if item in units && !units[item].Coef? {
        LookupFuel(split, units, units[item].target, f1 - 1, f2 - 1);
      }
  }

  /**
   * Replacing the entry of a name by the number it resolves to changes no
   * completed lookup of any item at any depth.
   */
  lemma {:induction false} ResolveOne(split: Splitter, units: map<string, UnitEntry>, k: string, fuel: nat, item: string, f: nat)
    requires Lookup(split, units, k, fuel).Ok?
    requires Lookup(split, units, item, f) != Err(RecursionLimit)
    ensures Lookup(split, units[k := Coef(Lookup(split, units, k, fuel).value)], item, f) == Lookup(split, units, item, f)
    decreases f
  {
    match split(item)
    case Err(_) =>
    case Ok((a, rest)) =>
      if a.Some? {
        ResolveOne(split, units, k, fuel, rest, f - 1);
      } else if item == k {
        LookupFuel(split, units, k, fuel, f);
      } else if item in units && !units[item].Coef? {
        ResolveOne(split, units, k, fuel, units[item].target, f - 1);
      }
  }

  /** Every lookup `before` completes gives the same answer on `now`. */
  ghost predicate Agrees(split: Splitter, now: map<string, UnitEntry>, before: map<string, UnitEntry>) {
    forall item, f: nat {:trigger Lookup(split, before, item, f)} ::
      Lookup(split, before, item, f) != Err(RecursionLimit) ==> Lookup(split, now, item, f) == Lookup(split, before, item, f)
  }

  lemma ResolveOneAgrees(split: Splitter, units: map<string, UnitEntry>, k: string, fuel: nat, before: map<string, UnitEntry>)
    requires Lookup(split, units, k, fuel).Ok?
    requires Agrees(split, units, before)
    ensures Agrees(split, units[k := Coef(Lookup(split, units, k, fuel).value)], before)
  {
    forall item, f: nat | Lookup(split, before, item, f) != Err(RecursionLimit)
      ensures Lookup(split, units[k := Coef(Lookup(split, units, k, fuel).value)], item, f) == Lookup(split, before, item, f)
    {
      ResolveOne(split, units, k, fuel, item, f);
    }
  }

  /** `chain(*mappings)`: the pairs of several mappings, one mapping after another. */
  function Concat<T>(xss: seq<seq<T>>): seq<T>
    decreases |xss|
  {
    if xss == [] then [] else Concat(xss[..|xss| - 1]) + xss[|xss| - 1]
  }

  lemma ConcatStep<T>(xss: seq<seq<T>>, i: nat)
    requires i < |xss|
    ensures Concat(xss[..i + 1]) == Concat(xss[..i]) + xss[i]
  {
    assert xss[..i + 1][..i] == xss[..i];
  }

  /** `BasicMeasure`: a named measure with its insertion-ordered unit table. */
  class BasicMeasure {
    const name: string
    /** Whether the measure is a `DynamicMeasure`, whose measurements remember their unit. */
    const dynamic: bool
    /** How `__getitem__` splits a leading amount off an item: `SplitLeading`. */
    const split: Splitter
    var units: map<string, UnitEntry>
    var order: seq<string>

    ghost predicate Valid()
      reads this
    {
      Indexed(units, order)
    }

    /** `BasicMeasure(name, **units)`: the keyword units, assigned in the order given. */
    constructor(name: string, dynamic: bool, init: seq<(string, UnitEntry)>)
      ensures Valid()
      ensures this.name == name && this.dynamic == dynamic && split == SplitLeading
      ensures (units, order) == PutAll(map[], [], init)
      ensures units == MapOf(init)
    {
      this.name := name;
      this.dynamic := dynamic;
      this.split := SplitLeading;
      PutAllValues(map[], [], init);
      PutAllIndexed(map[], [], init);
      assert map[] + MapOf(init) == MapOf(init);
      units := PutAll(map[], [], init).0;
      order := PutAll(map[], [], init).1;
    }

    /** `self[item]` for a textual item. */
    function Get(item: string): (r: Result<real>)
      reads this
      ensures split(item) == Ok((None, item)) && item in units && units[item].Coef? ==> r == Ok(units[item].value)
      ensures split(item) == Ok((None, item)) && item !in units ==> r == Err(KeyError(item))
    {
      Lookup(split, units, item, MaxDepth)
    }

    /** `item in self`: membership of the name itself, with no amount split and no alias chase. */
    predicate Contains(item: string)
      reads this
    {
      item in units
    }

    /** `self[key] = value` */
    method SetItem(key: string, value: UnitEntry)
      requires Valid()
      modifies this
      ensures Valid()
      ensures (units, order) == Put(old(units), old(order), key, value)
    {
      PutIndexed(units, order, key, value);
      units, order := Put(units, order, key, value).0, Put(units, order, key, value).1;
    }

    /**
     * `update(*mappings, **kwargs)`: every pair of every mapping assigned in
     * turn (the keyword arguments are the last mapping).
     */
    method Update(mappings: seq<seq<(string, UnitEntry)>>)
      requires Valid()
      modifies this
      ensures Valid()
      ensures (units, order) == PutAll(old(units), old(order), Concat(mappings))
      ensures units == old(units) + MapOf(Concat(mappings))
    {
      var i := 0;
      while i < |mappings|
        invariant 0 <= i <= |mappings|
        invariant Valid()
        invariant (units, order) == PutAll(old(units), old(order), Concat(mappings[..i]))
      {
        ghost var done := Concat(mappings[..i]);
        UpdateOne(mappings[i]);
        PutAllAppend(old(units), old(order), done, mappings[i]);
        ConcatStep(mappings, i);
        i := i + 1;
      }
      assert mappings[..i] == mappings;
      PutAllValues(old(units), old(order), Concat(mappings));
    }

    /** The pairs of one mapping, assigned in turn. */
    method UpdateOne(m: seq<(string, UnitEntry)>)
      requires Valid()
      modifies this
      ensures Valid()
      ensures (units, order) == PutAll(old(units), old(order), m)
    {
      var j := 0;
      while j < |m|
        invariant 0 <= j <= |m|
        invariant Valid()
        invariant (units, order) == PutAll(old(units), old(order), m[..j])
      {
        PutAllAppend(old(units), old(order), m[..j], [m[j]]);
        assert m[..j + 1] == m[..j] + [m[j]];
        SetItem(m[j].0, m[j].1);
        j := j + 1;
      }
      assert m[..j] == m;
    }

    /**
     * `optimize_aliases`: every entry that is not a number is replaced, in
     * table order, by the number it currently resolves to. A lookup that fails
     * stops the pass with its error, leaving the entries already replaced.
     * Either way no lookup that used to complete changes its answer; on
     * success every entry is a number.
     */
    method OptimizeAliases() returns (err: Option<Error>)
      requires Valid()
      modifies this
      ensures Valid()
      ensures units.Keys == old(units).Keys && order == old(order)
      ensures Agrees(split, units, old(units))
      ensures err.None? ==> forall k | k in units :: units[k].Coef?
      ensures err.Some? ==> exists k | k in units :: Get(k) == Err(err.value)
    {
      var i := 0;
      while i < |order|
        invariant 0 <= i <= |order|
        invariant Valid()
        invariant units.Keys == old(units).Keys && order == old(order)
        invariant Agrees(split, units, old(units))
        invariant forall k | k in units && k in order[..i] :: units[k].Coef?
      {
        var k := order[i];
        assert order[..i + 1] == order[..i] + [k];
        if !units[k].Coef? {
          var found := Get(k);
          if found.Err? {
            return Some(found.error);
          }
          ResolveOneAgrees(split, units, k, MaxDepth, old(units));
          units := units[k := Coef(found.value)];
        }
        i := i + 1;
      }
      assert order[..i] == order;
      return None;
    }

    /** `native_unit()`: the first unit assigned to the measure. */
    function NativeUnit(): (r: Result<string>)
      requires Valid()
      reads this
      ensures r.Ok? <==> units != map[]
      ensures r.Ok? ==> r.value in units && r.value == order[0]
      ensures r.Err? ==> r.error == StopIteration
    {
      EmptyOrder(units, order);
      if order == [] then Err(StopIteration) else Ok(order[0])
    }
  }

  /** The population table: person=1, couple=2, minyan=10, team=5, play=(2, 'team'). */
  function PopulationUnits(): seq<(string, UnitEntry)> {
    [("person", Coef(1.0)), ("couple", Coef(2.0)), ("minyan", Coef(10.0)), ("team", Coef(5.0)),
     ("play", Scaled(2.0, "team"))]
  }

  /** Two teams make a minyan, and so does a play (a scaled alias of a team), whatever the depth left. */
  lemma PopulationLookups(split: Splitter, fuel: nat)
    requires fuel >= 2
    requires forall name | name in ["team", "minyan", "play"] :: split(name) == Ok((None, name))
    ensures var t := MapOf(PopulationUnits());
      && Lookup(split, t, "team", fuel) == Ok(5.0)
      && Lookup(split, t, "minyan", fuel) == Ok(10.0)
      && Lookup(split, t, "play", fuel) == Ok(10.0)
  {
    var t := MapOf(PopulationUnits());
    assert t["team"] == Coef(5.0) && t["minyan"] == Coef(10.0) && t["play"] == Scaled(2.0, "team");
    assert split("team") == Ok((None, "team"));
    assert Lookup(split, t, "team", fuel - 1) == Ok(5.0);
  }

  /** The splitter finds no amount in a plain unit name. */
  lemma PlainNames()
    ensures forall name | name in ["team", "minyan", "play"] :: SplitLeading(name) == Ok((None, name))
  {
    forall name | name in ["team", "minyan", "play"]
      ensures SplitLeading(name) == Ok((None, name))
    {
      assert forall k :: 0 <= k < |name| ==> 'a' <= name[k] <= 'z';
      LowercaseNoAmount(name, None);
    }
  }

  /**
   * The population measure: `team * 2 == minyan == play`, and the same after
   * `optimize_aliases`.
   */
  method PopulationScenario() returns (team: real, minyan: real, play: real, team2: real, play2: real)
    ensures team * 2.0 == minyan == play
    ensures team2 * 2.0 == minyan && play2 == play
  {
    var population := new BasicMeasure("population", false, PopulationUnits());
    PopulationAnswers(population);
    team := population.Get("team").value;
    minyan := population.Get("minyan").value;
    play := population.Get("play").value;
    var err := population.OptimizeAliases();
    PopulationAnswers(population);
    team2 := population.Get("team").value;
    play2 := population.Get("play").value;
  }

  /** A measure whose lookups agree with the population table's finds a team, a minyan and a play. */
  lemma PopulationAnswers(m: BasicMeasure)
    requires m.split == SplitLeading
    requires Agrees(SplitLeading, m.units, MapOf(PopulationUnits()))
    ensures m.Get("team") == Ok(5.0) && m.Get("minyan") == Ok(10.0) && m.Get("play") == Ok(10.0)
  {
    PlainNames();
    PopulationLookups(SplitLeading, MaxDepth);
  }
}
