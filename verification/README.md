# Measure: a verified model of the measure-algebra engine

This project is a Dafny model of the core of the Python package `measure`, a
library of physical quantities. It covers:

- **Measures.** A measure is a dimension such as distance, time or
  temperature.
- **Units.** A unit is a name in a measure's table, whose size is given in
  the measure's *arbitrary unit*.
- **Measurements.** A measurement is an amount of a measure, held in its
  arbitrary unit.

The model follows the package's own structure, one Dafny module per part.

| file | module | what it models |
|---|---|---|
| `base.dfy` | `Base` | `Option`, `Result`, the exceptions the engine raises, and the interpreter's recursion limit |
| `util.dfy` | `Util` | `FalseWrapper`; the leading-amount grammar of `split_amount_args`; `combine_maps` as a loop proved against a key-by-key specification; insertion-ordered tables (Python dicts) |
| `basic.dfy` | `Basic` | `BasicMeasure` (and `DynamicMeasure`): a class holding a unit table and its key order. It covers the recursive alias chase, `update`, `optimize_aliases` and `native_unit` |
| `ladder.dfy` | `Linear` | `Ladder`, an affine map `(scale, offset)`, and two-point calibration. `LinearMeasure` is a class holding a ladder table, with the scale-only lookup of its delta view |
| `composite.dfy` | `Composite` | The composite-unit grammar of derived measures (`meter/second^2`); the greedy assignment of tokens to primitive parts; and the writing of a derived measure's native unit, which is proved to read back when its exponents are whole numbers |
| `derived.dfy` | `Derived` | `DerivedMeasure`: a class with its parts, aliases and name; membership and lookup on the live tables of its parts; `native_unit` |
| `algebra.dfy` | `Algebra` | The exponent algebra of `*`, `/`, `**`, `~` and `root`. Also the process-wide cache of `DerivedMeasure.__new__`, a `Registry` class that maps a factorisation to the one object filed under it |
| `measurement.dfy` | `Measurements` | `Measurement` and `DynamicMeasurement` values, and calling a measure. Number and measurement arithmetic, coalescing, equality, orderings, rounding and reading in a unit. A dynamic measurement reads the live unit table |
| `aggregate.dfy` | `Aggregates` | Aggregate (absolute) measures and their points. A point plus or minus an interval is a point; point minus point is an interval of the derivative measure |
| `scenarios.dfy` | `Scenarios` | The temperature, population, position and dynamic-currency examples of the repository, stated as lemmas over the model |

Modelling choices:

- **Amounts** are `real`. Python's `math.isclose` is exact equality.
- **Every alias chase** takes a `fuel` argument, which stands in for the
  interpreter's recursion limit of 1000. A chase that runs out answers
  `Err(RecursionLimit)`.
- **Primitive measures** are basic measures and the delta views of linear
  measures. Each linear measure has exactly one delta view, so its owner
  stands for it.
- **"The same object"** is, for derived measures, "the object the registry
  files under this factorisation". `Algebra.SamePowersSameMeasure` proves
  that measures with the same exponents are then one and the same.
- **Composite matching** has two rules, selected by `Composite.Rule`. The
  rule as written is the one `DerivedMeasure` runs. The intended rule is
  modelled beside it, with its exact-factorisation property (see
  "## Findings").
- **Ladder calibration** in `LinearMeasure.AddLadder` runs `from_points` as
  written, assertion included. The intended calibration is `Linear.FromPoints`.
  Whenever the written one succeeds, it built that ladder.
- **What the source leaves out** stays out. `measure/dynamic.py` handles
  only basic dynamic measures: derived ones are marked as still to do.
  `DerivedMeasure.__getitem__` takes a measurement or a string and no other
  key.
- **Where the model departs from the code**, the member is named under
  "## Left out".

## Model

| member | source | states |
|---|---|---|
| Util.FalseWrapper.Truth | measure/_util.py:11-12 | a false wrapper is never truthy |
| Util.FalseWrapper.Call | measure/_util.py:14-15 | calling a false wrapper hands back exactly the value it wraps |
| Util.SplitAmountArgs | measure/_util.py:18-25 | a successful split is either `(default, arg)` untouched, or an amount with a strictly shorter rest, which is then the tail of `arg` |
| Util.SplitWithoutAmount | measure/_util.py:22-25 | a string with no leading amount gives `(default, arg)` unchanged |
| Util.NoSpaceNoAmount | measure/_util.py:18 | a string without whitespace, such as "3km", carries no amount and gives the default |
| Util.LowercaseNoAmount | measure/_util.py:18 | a unit name spelled in lower-case letters, such as "team", splits as (default, itself) |
| Util.LeadingSpaceNoAmount | measure/_util.py:22-25 | leading whitespace leaves the numeric group empty, so the default is returned |
| Util.SplitWholeNumber | measure/_util.py:18-24 | digits and commas, whitespace, then a rest give the number the digits spell (commas removed) and that rest |
| Util.FloatValueOfWhole | measure/_util.py:24 | `float()` of digits with commas removed is the number the digits spell |
| Util.RemoveCommas | measure/_util.py:24 | removing commas leaves no comma and never lengthens the text |
| Util.RemoveCommasKeepsDigits | measure/_util.py:24 | removing the commas from digits and commas leaves only digits |
| Util.SplitLeading | measure/measure.py:318 | with default None: no leading amount gives `(None, item)`; otherwise an amount and a strictly shorter rest, or the float error |
| Util.InChain | measure/_util.py:45 | a key occurs in the chained keys exactly when some map has it |
| Util.Args | measure/_util.py:50 | the i-th argument for key `k` is `maps[i].get(k, default)` |
| Util.EmptyMap | measure/_util.py:46 | `Counter()` is well formed and empty |
| Util.CombineMaps | measure/_util.py:44-54 | the loop returns exactly the key-by-key fold over the chained keys that `Util.CombinedSpec` characterises |
| Util.FoldSound | measure/_util.py:47-53 | each turn of the loop keeps every stored value sound, never drops a key, and stores every visited key whose value differs from the default |
| Util.CombinedSpec | measure/_util.py:44-54 | the result is well formed; every stored value differs from `default` and is `func` of the per-map values; every stored key comes from an input; an input key is stored exactly when `func` of its values is not `default` |
| Util.NegationCancels | measure/_util.py:50-51 | for every key, the sum of a map's value and its negation's value is 0 |
| Util.MergeWithNegationIsEmpty | measure/_util.py:52-53 | merging a map with its negation under `+` gives the empty Counter |
| Util.EmptyOrder | measure/measure.py:343-344 | a table's key order is empty exactly when the table is |
| Util.PutIndexed | measure/measure.py:310-311 | `d[k] = v` keeps the key order listing every key once, a new key last |
| Util.MapOf | measure/measure.py:301-308 | for keyword units, the last value given for a key wins |
| Util.MapOfKeys | measure/measure.py:301-308 | the keys of the built table are exactly the keys the pairs name |
| Util.PutAllValues | measure/measure.py:279-281 | assigning pairs one by one overlays the table they build on the old table |
| Util.PutAllIndexed | measure/measure.py:279-281 | assigning pairs one by one keeps the key order valid and the old order as a prefix |
| Util.PutAllAppend | measure/measure.py:279-281 | assigning two runs of pairs is assigning their concatenation |
| Linear.Ladder.FromArb | measure/linear.py:17-22 | `from_arb` raises division by zero exactly when the scale is 0; otherwise its result is the value whose `to_arb` is the input |
| Linear.Ladder.ToArb | measure/linear.py:24-29 | a value of this ladder on the arbitrary ladder; `Linear.ArbRoundTrip` and `Linear.ArbRoundTripBack` prove that it and `from_arb` undo each other |
| Linear.ArbRoundTrip | measure/linear.py:17-29 | `from_arb(to_arb(v)) == v` for every ladder with a non-zero scale |
| Linear.ArbRoundTripBack | measure/linear.py:17-29 | `to_arb(from_arb(v)) == v` wherever `from_arb` succeeds |
| Linear.Arbitrary | measure/linear.py:54-59 | both maps of the arbitrary ladder are the identity |
| Linear.Solve | measure/linear.py:48-52 | two-point calibration fails with division by zero exactly when either pair has equal points; otherwise the ladder has a non-zero scale and maps each of its points onto the given reference point |
| Linear.SolveUnique | measure/linear.py:48-50 | every ladder through the two calibration points is the one `Solve` builds |
| Linear.FromPoints | measure/linear.py:35-52 | with a reference ladder, its points are first mapped through that ladder's `to_arb`; without one, the points are on the arbitrary ladder |
| Linear.FromPointsCalibrated | measure/linear.py:35-52 | the ladder built maps its two points to the same arbitrary values as the reference points on the reference ladder |
| Linear.SolveAsWritten | measure/linear.py:48-52 | the calibration as written succeeds only when the second point round-trips, as its assertion demands |
| Linear.FromPointsAsWritten | measure/linear.py:45-47 | as written, a reference ladder is resolved the same way before the written calibration |
| Linear.AsWrittenAgreement | measure/linear.py:49-51 | the written calibration agrees with the intended one exactly when the first reference point is 0 or the scale is ±1; otherwise the assertion fails |
| Linear.AsWrittenSoundWhenOk | measure/linear.py:49-51 | whenever the written calibration succeeds, it built the intended ladder |
| Linear.FromPointsAsWrittenSound | measure/linear.py:38-52 | whenever the written calibration succeeds, with or without a reference ladder, it built the intended ladder through the points |
| Linear.FahrenheitByWaterPoints | measure/linear.py:48-51 | calibrating fahrenheit on water's freezing and boiling points fails as written, but intended gives scale 5/9 and offset 459.67 |
| Linear.Lookup | measure/linear.py:105-114 | a lookup finds a ladder of the table; a ladder entry answers itself; a missing name raises KeyError; the only failures are KeyError and the recursion limit |
| Linear.LookupFuel | measure/linear.py:111-113 | once an alias chase completes, more depth does not change its answer |
| Linear.ResolveOne | measure/linear.py:121-123 | replacing one entry by the ladder it resolves to leaves every completed lookup unchanged |
| Linear.ResolveOneAgrees | measure/linear.py:121-123 | that replacement keeps the table answering every lookup the original table answered |
| Linear.LinearMeasure.constructor | measure/linear.py:71-79 | a new linear measure has its name and an empty ladder table |
| Linear.LinearMeasure.Get | measure/linear.py:105-114 | `self[item]` is the ladder stored under the name, or KeyError for a missing name |
| Linear.LinearMeasure.SetItem | measure/linear.py:97-103 | `self[key] = value` is dict assignment: a new key goes last, an existing one keeps its place |
| Linear.LinearMeasure.AddLadder | measure/linear.py:81-95 | the result is `from_points` as written on the reference ladder, so a calibration whose assertion fails raises and stores nothing; a successful one is the intended ladder through the points and is stored under the name, a new name appended to the insertion order and an existing one kept in place; any failure leaves the table and its order unchanged |
| Linear.LinearMeasure.Reference | measure/linear.py:91-92 | a reference given by name is the table's ladder for that name, and the lookup's error is passed on |
| Linear.LinearMeasure.OptimizeAliases | measure/linear.py:116-123 | keys and order are kept and every completed lookup answers as before; without an error every entry is a ladder; an error is KeyError or the recursion limit |
| Linear.LinearMeasure.NativeUnit | measure/linear.py:153-154 | the delta view's native unit is the first name assigned; StopIteration exactly when the table is empty |
| Linear.LinearMeasure.DeltaScale | measure/linear.py:136-145 | for a name without an amount, the delta view answers the ladder's scale only, or the lookup's error |
| Linear.LinearMeasure.DeltaContains | measure/linear.py:147-148 | `item in delta` is membership of the name in the shared ladder table, with no amount split and no alias chase |
| Linear.DeltaAmountScales | measure/linear.py:141-144 | an amount before a ladder name multiplies the scale of the rest, and fails when it does |
| Basic.AmountScales | measure/measure.py:318-320 | an amount before a unit name makes the lookup that amount times the lookup of the rest, and fails when it does |
| Basic.AmountOfCoefficient | measure/measure.py:318-332 | an amount before a unit with coefficient `c` looks up as amount × `c` |
| Basic.LookupFuel | measure/measure.py:313-332 | once an alias chase completes, more depth does not change its answer |
| Basic.ResolveOne | measure/measure.py:289-291 | replacing one entry by the coefficient it resolves to leaves every completed lookup unchanged |
| Basic.ResolveOneAgrees | measure/measure.py:289-291 | that replacement keeps the table answering every lookup the original table answered |
| Basic.BasicMeasure.constructor | measure/measure.py:301-308 | the keyword units are assigned in the order given, building the table they name |
| Basic.BasicMeasure.Get | measure/measure.py:313-332 | a plain name with a coefficient entry looks up as that coefficient; a missing name raises KeyError |
| Basic.BasicMeasure.Contains | measure/measure.py:334-335 | `item in measure` is membership of the name itself in the unit table, with no amount split and no alias chase |
| Basic.BasicMeasure.SetItem | measure/measure.py:310-311 | `self[key] = value` is dict assignment: a new key goes last, an existing one keeps its place |
| Basic.BasicMeasure.Update | measure/measure.py:272-282 | the mappings' pairs are assigned one after another; the table becomes the old table overlaid with them |
| Basic.BasicMeasure.OptimizeAliases | measure/measure.py:284-292 | keys and order are kept and every completed lookup answers as before; without an error every entry is a coefficient; an error is one some lookup raises |
| Basic.BasicMeasure.NativeUnit | measure/measure.py:343-344 | the native unit is the first unit assigned; StopIteration exactly when the table is empty |
| Basic.PopulationLookups | tests/tests.py:9-11 | in the population table a team is 5, a minyan 10, and a play (two teams) 10 |
| Basic.PlainNames | tests/tests.py:9-11 | the population's unit names carry no leading amount |
| Basic.PopulationScenario | tests/tests.py:8-14 | two teams make a minyan, and so does a play, both before and after `optimize_aliases` |
| Basic.PopulationAnswers | tests/tests.py:12-14 | any table that answers the population table's lookups finds a team, a minyan and a play as before |
| Composite.Exponent | measure/measure.py:359-362 | an exponent is at least 1; a term without digits has power 1 |
| Composite.Terms | measure/measure.py:358-362 | a parsed side is a non-empty list of tokens, each a run of letters with a positive power |
| Composite.Numerator | measure/measure.py:359 | the numerator is "1" (no tokens) or well-formed terms |
| Composite.Parse | measure/measure.py:358-361 | every token of a parsed unit string is well formed |
| Composite.Match | measure/measure.py:405-421 | membership of a string that is not an alias, under either rule: the parse, then the tokens; `Composite.MatchKnown`, `Composite.MatchTokensOrder`, `Composite.MatchTokensWritten` and `Composite.MatchTokensExact` state what it accepts |
| Composite.MatchTokens | measure/measure.py:408-421 | the numerator's tokens are assigned with factor 1 and the denominator's with -1, starting from the parts, and the first unfinished part refuses the string |
| Composite.FirstFit | measure/measure.py:434-439 | the chosen part is the first, in insertion order, that has enough remaining power and knows the name; no part is chosen only when none does |
| Composite.FindFit | measure/measure.py:434-441 | the inner search loop finds exactly `FirstFit` |
| Composite.AssignAll | measure/measure.py:424-441 | assigning tokens fails only with the KeyError of one of their names |
| Composite.AssignMeasurements | measure/measure.py:424-441 | the `_assign_measurements` loop computes exactly `AssignAll` |
| Composite.FirstUnfinished | measure/measure.py:417-419 | the refused part is the first, in insertion order, whose leftover the rule refuses; none is refused only when no leftover is |
| Composite.FindUnfinished | measure/measure.py:417-419 | the leftover loop finds exactly `FirstUnfinished` |
| Composite.MatchParsed | measure/measure.py:405-408 | an unparsable string is refused with a false wrapper of the parse error; a parsed one is decided by its tokens |
| Composite.MatchString | measure/measure.py:405-421 | the parse and both assignment loops compute exactly the outcome `Composite.Match` specifies |
| Composite.AssignTokens | measure/measure.py:408-421 | both assignment loops and the leftover check give exactly the outcome `MatchTokens` specifies |
| Composite.AssignAllBooks | measure/measure.py:434-438 | every assignment step keeps the books: each remaining power is the starting power minus what was assigned, and each assignment names a part that knows the unit |
| Composite.MatchKnown | measure/measure.py:434-436 | every assignment of an accepted string names one of the measure's parts and a unit that part has |
| Composite.MatchTokensExact | measure/measure.py:417-421 | under the intended rule an accepted string is an exact factorisation: the powers assigned to each part add up to its exponent, and each name is a unit of its part |
| Composite.MatchTokensWritten | measure/measure.py:417-421 | under the rule as written an accepted string may overshoot: each part's exponent minus the powers assigned to it is at most zero, and each name is a unit of its part |
| Composite.MatchTokensOrder | measure/measure.py:429-436 | the assignments follow the tokens in order: the numerator's powers, then the denominator's negated |
| Composite.AssignOrder | measure/measure.py:429-436 | each token adds one assignment with its name and its power times the side's sign, after those already made |
| Composite.AssertionNeverFails | measure/measure.py:434-438 | as written, the `assert left[p] >= 0` after each assignment always holds |
| Composite.AssignSingle | measure/measure.py:434-437 | one token goes to the first part that fits, whose budget drops by the token's signed power |
| Composite.Numeral | measure/measure.py:496-499 | `str(n)` is a non-empty run of digits spelling `n`, with a non-zero first digit for `n >= 1` |
| Composite.TermsOfJoin | measure/measure.py:358-362 | terms joined by " * " or "*" parse back to the same terms |
| Composite.Format | measure/measure.py:502-509 | the native-unit text: the numerator's terms (or "1") joined by the separator, then "/" and the denominator's terms when there are any; `Composite.FormatParses` proves that it parses back |
| Composite.FormatParses | measure/measure.py:491-509 | the native-unit text of well-formed terms, compact or not, parses back to the numerator's and the denominator's terms |
| Composite.ParseMeterPerMinute | measure/measure.py:358-361 | "m/m" parses as one "m" over one "m" |
| Composite.BareMeter | measure/measure.py:417-419 | "meter" against Distance/Time assigns the meter to distance and leaves time at -1, which only the intended rule refuses |
| Composite.BareNumeratorAccepted | measure/measure.py:417-419 | as written "meter" alone is accepted as a speed; under the intended rule it is refused because time is unassigned |
| Composite.DenominatorMisassigned | measure/measure.py:434 | as written the denominator's "m" of "m/m" lands on distance, so a meters-per-minute string is refused |
| Composite.DenominatorAssignedIntended | measure/measure.py:434 | under the intended rule "m/m" assigns meter to distance and minute to time |
| Derived.Prim.NativeUnit | measure/measure.py:343-344 | a primitive's native unit is one of its unit names; StopIteration exactly when it has none |
| Derived.FailureError | measure/measure.py:405-419 | each refusal carries its exception: the parse error of an unparsable string, the KeyError of a unit no part has, or the unassigned-part error naming the part left over |
| Derived.IntPower | measure/measure.py:465 | `x ** n` fails exactly for a negative power of zero; a negative power is the reciprocal of the positive one |
| Derived.MultiplyFromFails | measure/measure.py:463-467 | the product fails exactly when some factor does, and then with the first failing factor's error |
| Derived.Product | measure/measure.py:463-467 | the product loop of `__getitem__` computes exactly the product of the factors |
| Derived.NativeTermsWellFormed | measure/measure.py:494-500 | when the parts' native units are letter names, the native-unit terms are well-formed tokens |
| Derived.NativeTerms | measure/measure.py:494-500 | the native-unit terms part by part in insertion order: positive powers above the line, the others below it with their magnitude; a part without a native unit raises |
| Derived.DerivedMeasure.constructor | measure/measure.py:385-392 | a new derived measure holds its parts, no aliases and no name |
| Derived.DerivedMeasure.Reinit | measure/measure.py:376-392 | `__init__` on a cached object resets its parts, wipes its aliases and its name |
| Derived.DerivedMeasure.SetAlias | measure/measure.py:469-473 | `self[key] = value` sets one alias and changes nothing else |
| Derived.DerivedMeasure.SetName | measure/measure.py:469-472 | `self[:] = value` sets the display name and changes nothing else |
| Derived.DerivedMeasure.Assign | measure/measure.py:405-421 | membership's parse, assignment loops and leftover check, under the rule as written, give exactly the outcome `MatchItem` specifies |
| Derived.DerivedMeasure.MatchItem | measure/measure.py:405-436 | membership's match on the live tables under the rule as written: a token fits a part whose remaining power is at least its signed power, and only a positive leftover is refused |
| Derived.DerivedMeasure.In | measure/measure.py:397-421 | a plain item always gets an answer, since the match wraps its failures; only an alias chain can raise, by running out of depth or by unpacking a text alias that is not two characters (ValueError) |
| Derived.DerivedMeasure.GetSpec | measure/measure.py:443-467 | `self[item]` for a string: a leading amount multiplies, an alias scales its target, otherwise the matched units' product; `LookupFactorises`, `FoundIsIn` and `RefusedRaises` state what it answers |
| Derived.DerivedMeasure.OutcomeValue | measure/measure.py:459-467 | a refusal raises the exception its false wrapper carries; an empty assignment list is called and raises TypeError; otherwise the product of the factors |
| Derived.DerivedMeasure.MatchOwned | measure/measure.py:429-436 | every part the match as written assigns a unit to is one of this measure's parts |
| Derived.DerivedMeasure.Get | measure/measure.py:443-467 | `self[item]` computes exactly the specified lookup at the interpreter's recursion depth |
| Derived.DerivedMeasure.GetFuel | measure/measure.py:443-467 | the lookup at any depth computes exactly the specified lookup: an amount multiplies, an alias scales its target, otherwise the product of the matched units |
| Derived.DerivedMeasure.Resolve | measure/measure.py:459-467 | a refused match raises its wrapped exception, an accepted one gives the product of its factors |
| Derived.DerivedMeasure.NativeUnit | measure/measure.py:491-509 | `native_unit(compact)` computes exactly the part-by-part terms, joined and separated by "/" |
| Derived.DerivedMeasure.LookupFactorises | measure/measure.py:443-467 | a successful lookup of a plain unit string assigns to each part its exponent minus a leftover that is at most zero ("meter" in Distance/Time leaves time at -1), each name is a unit of its part, and the value is the product of their coefficients raised to their powers |
| Derived.DerivedMeasure.FoundIsIn | measure/measure.py:397-421 | a plain unit string whose lookup succeeds is in the measure |
| Derived.DerivedMeasure.RefusedRaises | measure/measure.py:459-462 | a refused unit string is not in the measure, and its lookup raises the wrapped exception |
| Derived.DerivedMeasure.NativeUnitReadsBack | measure/measure.py:491-509 | for whole-number exponents, the native unit parses back into the positive-power parts over the negative-power ones, in insertion order |
| Algebra.Pointwise | measure/measure.py:56-66 | a merge whose function maps all-zero arguments to 0 is well formed, free of zero exponents, and pointwise that function |
| Algebra.ProductPowers | measure/measure.py:118-125 | the exponents of a product are the sums of the operands' exponents, with no zero kept |
| Algebra.QuotientPowers | measure/measure.py:127-134 | the exponents of a quotient are the differences of the operands' exponents, with no zero kept |
| Algebra.PowerPowers | measure/measure.py:144-145 | raising to a power that keeps exponents whole multiplies every exponent by it, with no zero kept |
| Algebra.RootPowers | measure/measure.py:511-515 | the root `r` of a factorisation whose exponents `r` divides has exponents that, times `r`, give the originals |
| Algebra.QuotientTwice | tests/tests.py:19-23 | Distance / Time / Time has the exponents of Distance / Time ** 2 |
| Algebra.EnergyIsForceTimesDistance | tests/tests.py:41-49 | Mass * Distance ** 2 / Time ** 2 has the exponents of (Mass * Distance / Time / Time) * Distance |
| Algebra.Registry.constructor | measure/measure.py:363 | the cache starts empty |
| Algebra.Registry.Intern | measure/measure.py:369-392 | `DerivedMeasure(parts)`: the scalar for no parts, the primitive for one part to the power 1, otherwise the cached object (fresh on a miss) re-initialised. The cache only grows |
| Algebra.Registry.Cache | measure/measure.py:376-392 | a hit returns the filed object, a miss files a fresh one; either way `__init__` leaves it with these parts, no aliases and no name |
| Algebra.Registry.Multiply | measure/measure.py:118-125 | `a * b` has every exponent the sum of the operands' and is the canonical measure for it; the operands are unchanged |
| Algebra.Registry.Divide | measure/measure.py:127-134 | `a / b` has every exponent the difference of the operands' and is the canonical measure for it; the operands are unchanged |
| Algebra.Registry.Invert | measure/measure.py:169-173 | `~a` has every exponent negated |
| Algebra.Registry.DivideInto | measure/measure.py:175-184 | `x / a` is `~a` for `x == 1` and raises NotImplementedError otherwise |
| Algebra.Registry.Root | measure/measure.py:249-254 | the scalar is its own root; a primitive only has the root 1; a derived measure has the root `r` exactly when `r` divides every exponent, whose quotients are the root's exponents |
| Algebra.Registry.Raise | measure/measure.py:136-145 | a power `1/n` (n not 0 or ±1) takes the `n`th root; any other power scales every exponent and fails only when one would be fractional |
| Algebra.InverseRoot | measure/measure.py:142-143 | the `n`th root's exponents are the exponents multiplied by `1/n` |
| Algebra.SamePowersSameMeasure | measure/measure.py:369-383 | canonical measures with the same exponent for every primitive are one and the same measure |
| Algebra.DivideTwiceIsDivideBySquare | tests/tests.py:19-23 | `Distance / Time / Time is Distance / Time ** 2`, as objects |
| Algebra.EnergyIsForceTimesDistanceMeasure | tests/tests.py:40-49 | `Energy` is `Force * Distance`, as objects |
| Algebra.NamedQuotient | measure/measure.py:469-473 | aliasing the quotient of two measures sets exactly that alias on the cached object |
| Algebra.RecomputedQuotient | measure/measure.py:376-392 | computing the same quotient again returns the same object, and the repeated `__init__` has wiped the alias given to it |
| Measurements.Make | measure/measure.py:537-549 | a measurement of the scalar measure is the bare number; any other keeps its amount and measure |
| Measurements.NameCoefficient | measure/measure.py:221-225 | the scalar measure has no units: every name raises KeyError |
| Measurements.Coefficient | measure/measure.py:313-317 | a measurement key of this very measure stands for its amount; one of another measure raises; a number is never a unit name; the scalar measure has no keys |
| Measurements.Convert | measure/measure.py:157-159 | `measure(unit, amount)` stores amount × the unit's coefficient, fails with the unit's error, and refuses a unit string as the amount, as Python does for a float coefficient |
| Measurements.Call | measure/measure.py:147-159 | a measure called with a unit converts the amount, called without one keeps it; a dynamic measure keeps the amount and the unit as given |
| Measurements.CallSwapped | measure/measure.py:154-155 | `measure(number, "unit")` is `measure("unit", number)` |
| Measurements.Rebuild | measure/dynamic.py:29-34 | `type(self)(amount, measure)` rebuilds a plain measurement and raises TypeError for a dynamic one, whose constructor also wants the unit |
| Measurements.Scale | measure/measure.py:551-559 | multiplying by a number multiplies the amount and keeps the measure |
| Measurements.Shrink | measure/measure.py:566-574 | dividing by a number divides the amount and keeps the measure; dividing by zero raises |
| Measurements.ScaleShrink | measure/measure.py:551-574 | dividing by the number a measurement was multiplied by gives the measurement back |
| Measurements.Negate | measure/measure.py:713-714 | `-x` negates the amount and keeps the measure |
| Measurements.Absolute | measure/measure.py:716-717 | `abs(x)` has a non-negative amount equal to the amount or its negation, in the same measure |
| Measurements.OneOf | measure/measure.py:533-534 | `measure(v)` for a string is one of that unit in this measure, and fails exactly when the unit does |
| Measurements.Coalesce | measure/measure.py:528-535 | a measurement stands for itself (for nothing when a checked measure differs), a non-zero number for nothing, a string for a measurement of this measure |
| Measurements.Add | measure/measure.py:606-615 | `+` adds the amounts within one measure and declines a different measure or a non-zero number |
| Measurements.Sub | measure/measure.py:617-626 | `-` subtracts the amounts within one measure and declines a different measure or a non-zero number |
| Measurements.SubFrom | measure/measure.py:628-629 | `other - self` is the other amount minus this one, in the same measure |
| Measurements.AddSub | measure/measure.py:606-626 | adding a measurement and subtracting it again gives the first back |
| Measurements.Equals | measure/measure.py:634-638 | `==` holds exactly for the same measure and the same amount; a unit string is compared as one of that unit |
| Measurements.Compare | measure/measure.py:656-678 | the orderings decline a different measure or a non-zero number and, with amounts of one numeric type, always answer within one measure |
| Measurements.CompareAmounts | measure/measure.py:656-678 | within one measure the orderings are those of the amounts, and agree when seen from the other side |
| Measurements.Round | measure/measure.py:640-651 | rounding to a unit of the same measure gives a whole number of that unit, in this measure; it declines another measure and fails on a zero unit |
| Measurements.Over | measure/measure.py:686 | `amount / measure[key]` succeeds exactly for a non-zero coefficient and gives the reading that, times the coefficient, is the amount |
| Measurements.Arb | measure/dynamic.py:36-37 | `arb()` is the stored amount times what the stored unit stands for in the live table, and fails when that lookup does |
| Measurements.Reading | measure/measure.py:680-686 | `x[unit]`, times the unit's coefficient, gives the amount (for a dynamic measurement, its `arb()`), and fails for a zero or missing coefficient |
| Measurements.ReadingRoundTrip | measure/measure.py:680-686 | a measurement read in a unit and rebuilt from that reading in the same unit is the same measurement |
| Measurements.NoPowerIsScalar | measure/measure.py:371-372 | a canonical measure is the scalar exactly when every exponent is 0 |
| Measurements.Product | measure/measure.py:551-564 | by a number the measure stays; by a measurement the amounts multiply and the exponents add, with the bare number for reciprocal measures; a string is declined |
| Measurements.Quotient | measure/measure.py:566-579 | by a number the measure stays; by a measurement the amounts divide (zero raises) and the exponents subtract, with the bare number for equal measures |
| Measurements.DivideInto | measure/measure.py:584-590 | `k / x` is `k` over the amount in the inverse measure; a zero amount raises |
| Measurements.Invert | measure/measure.py:592-596 | `~x` is the reciprocal amount in the inverse measure |
| Measurements.Pow | measure/measure.py:598-604 | `x ** p` raises the amount with the interpreter's `**` and multiplies every exponent of the measure by `p` |
| Measurements.Root | measure/measure.py:719-725 | `x.root(n)` raises for `n == 0`; otherwise the amount is raised to `1/n`, and the measure's exponents times `n` give the originals |
| Aggregates.Converter.FromArb | measure/measure.py:887 | reading an arbitrary value in a unit raises exactly for a zero scale or coefficient, and otherwise inverts `to_arb` |
| Aggregates.ConverterRoundTrip | measure/linear.py:17-29 | a value placed in a unit reads back the same in that unit |
| Aggregates.UnitOf | measure/linear.py:178-179 | the absolute view's unit is the whole ladder of that name; a basic aggregate's unit is the derivative's coefficient |
| Aggregates.ViewsShareLadders | measure/linear.py:136-145 | the delta and absolute views read one ladder table: a name is a unit of both or of neither, with the delta's coefficient the ladder's scale |
| Aggregates.AggregateOf | measure/measure.py:194-205 | `aggregate()` has the measure as its derivative, and is the absolute view exactly for a linear measure's delta view |
| Aggregates.Aggregate.Derivative | measure/measure.py:907-912 | the measure of the intervals between points: a basic aggregate's own measure, or the delta view of a linear measure |
| Aggregates.Place | measure/measure.py:779-781 | the point of `amount` in a unit is that unit's `to_arb` of the amount, in this aggregate |
| Aggregates.Position | measure/measure.py:764-781 | calling an aggregate measure gives a point of it; without an amount, a string must carry one (else the amount-required error) and any other argument raises TypeError |
| Aggregates.PositionSpellings | measure/measure.py:771-778 | `agg("25 C")`, `agg(25, "C")` and `agg("C", 25)` are the same point |
| Aggregates.Reading | measure/measure.py:886-887 | `point[unit]` is the value whose `to_arb` in that unit is the point's amount |
| Aggregates.PositionReading | measure/measure.py:779-781 | a point made from a value in a unit reads that value back in the unit |
| Aggregates.ToDelta | measure/measure.py:807-814 | an interval of the derivative measure stands for itself, a string or zero for one made of it, anything else for nothing |
| Aggregates.ToPoint | measure/measure.py:816-823 | a point of the same aggregate stands for itself, a string for the point it spells, a non-zero number for nothing |
| Aggregates.Add | measure/measure.py:825-833 | point + interval moves the point by the interval's amount; any other operand is declined |
| Aggregates.Sub | measure/measure.py:835-845 | point − interval is tried first and moves the point back; point − point of the same aggregate is the interval between them in the derivative measure |
| Aggregates.Between | measure/measure.py:840-845 | for an operand that stands for no interval: the interval from the point it stands for, in the derivative measure, or the coercion's failure |
| Aggregates.Interval | measure/measure.py:844 | `derivative()(None, arb)` is an interval of `arb` arbitrary units in the derivative measure, plain unless the derivative is dynamic |
| Aggregates.AddSubDelta | measure/measure.py:825-845 | moving a point by an interval and back gives the point |
| Aggregates.SubAddPoints | measure/measure.py:825-845 | the interval between two points, added to the second, gives the first |
| Aggregates.EqAsWritten | measure/measure.py:847-849 | as written, comparing with any point raises AttributeError for `owner` |
| Aggregates.Eq | measure/measure.py:847-849 | as intended, two points are equal exactly when they belong to the same aggregate and have the same amount |
| Aggregates.EqReflexive | measure/measure.py:847-849 | a point is not equal to itself as written, and is as intended |
| Aggregates.Round | measure/measure.py:854-860 | rounding a point to an interval gives a whole number of intervals; a non-interval raises TypeError |
| Aggregates.Compare | measure/measure.py:862-884 | the orderings compare arbitrary-scale amounts of points of one aggregate, taken as one numeric type, and decline any other |
| Aggregates.ComparePoints | measure/measure.py:862-884 | the orderings of two points agree with those of their amounts, from either side |
| Scenarios.CelsiusLadder | tests/tests.py:91 | celsius calibrated on (-273.15, 0) → (0, 273.15) is scale 1, offset 273.15, as written and as intended |
| Scenarios.FahrenheitLadder | tests/tests.py:92 | fahrenheit calibrated on (-459.67, -40) → (0, 233.15) is scale 5/9, offset 459.67, as written and as intended |
| Scenarios.AssignTwice | tests/tests.py:90-92 | a chained assignment stores the ladder under both names, in order |
| Scenarios.NewTemperature | tests/tests.py:89-92 | the temperature measure holds the three ladders under six names in insertion order |
| Scenarios.FahrenheitOnWaterPoints | measure/linear.py:81-95 | `add_ladder('F', (32, 212), (273.15, 373.15))` raises the calibration assertion and leaves the table and its order as they were |
| Scenarios.TemperatureEntries | tests/tests.py:90-92 | each temperature name stands for its ladder |
| Scenarios.RoomTemperature | tests/tests.py:94 | `absolute('25 C')` is 298.15 on the arbitrary ladder |
| Scenarios.RoomReadings | tests/tests.py:95-96 | room temperature reads 298.15 kelvin and 77 fahrenheit |
| Scenarios.Freezing | tests/tests.py:98-99 | `absolute('0 C')` is 273.15, below room temperature |
| Scenarios.RoomAboveFreezing | tests/tests.py:101-103 | room minus freezing is an interval of 25 that reads 45 in fahrenheit |
| Scenarios.HundredDegrees | tests/tests.py:105 | `delta('100 C')` is an interval of 100 |
| Scenarios.Boiling | tests/tests.py:105-107 | freezing plus 100 degrees is 373.15, which is 75 above room temperature |
| Scenarios.SeventyFiveCelsius | tests/tests.py:108 | that interval equals "75 C" |
| Scenarios.CelsiusScale | tests/tests.py:108 | "<a> C" is `a` in the delta view's arbitrary unit |
| Scenarios.HundredThirtyFiveFahrenheitScale | tests/tests.py:109 | "135 F" is 75 in the delta view's arbitrary unit |
| Scenarios.HundredThirtyFiveFahrenheit | tests/tests.py:109 | that interval equals "135 F" |
| Scenarios.LiveMade | measure/dynamic.py:9-22 | a dynamic measure called with a unit string keeps the amount 1 and the string unresolved |
| Scenarios.LiveReading | measure/dynamic.py:36-37 | `arb()` of a measurement made from "3 pog" is 3 × what pog stands for in the table now |
| Scenarios.LiveTable | measure/dynamic.py:36-37 | after `money['pog']` is reassigned, the same measurement's `arb()` follows the new coefficient |
| Scenarios.Placed | tests/tests.py:114-115 | `Position('8 m')`, and any "x m", is the point x meters along the distance aggregate when a meter is the arbitrary unit |
| Scenarios.TwoFeet | tests/tests.py:117 | `2 * Distance.foot` is the interval of two feet's worth of meters |
| Scenarios.JerryBehindTom | tests/tests.py:116-118 | jerry at -6 m moved by two feet is still behind tom at 8 m whenever a foot is under 7 m |

## Left out

- Floating point: amounts are exact reals, and `math.isclose` is equality.
  `float()` of a numeral is its exact decimal value. Overflow to infinity
  and rounding of decimal fractions are not modelled.
- Measurements.Pow, Measurements.Root: the interpreter's `**` on amounts is
  a parameter `pow` that may fail. The model states what is done with its
  result, not which number it is.
- Algebra.Registry.Raise, Measurements.Pow: exponents are integers. A power
  that Python accepts with a fractional result, such as `Distance ** 1.5` or a
  measurement raised to such a power, is reported as `FractionalPower`.
  Python builds a measure with exponent 1.5 there. A power `1/n` takes the
  `n`th root, as in the source.
- Derived.DerivedMeasure.NativeUnitReadsBack, Algebra.Registry.Root: the
  model's exponents stay whole numbers after a root or a power. Python holds
  float exponents there: `root` divides each exponent with `/`, and `**` by a
  float such as `2.0` multiplies by it, so `(Distance ** 4) ** 0.5` has the
  exponent `2.0`. Because `2.0 == 2`, the cache hands back the interned measure
  re-initialised with those float parts. Its `native_unit` then renders
  "m**2.0", and that text does not parse: the exponent group only takes
  digits without a point. The read-back is proved for the whole-number
  exponents the model holds, not for a measure whose exponents became floats.
- Measurements.Round, Aggregates.Round: the built-in `round` is a parameter.
  The result is stated to be a whole number of units, not the nearest one.
- The `re` engine is replaced by hand-written scanners for the two grammars
  it matches (the leading amount and composite units). The unescaped `^` of
  the repeated-term pattern is kept: only the first term of a side may use
  `^`.
- Util.SplitAmountArgs: its contract states the shape of the result. The
  value of the parsed number is proved for whole numbers with commas
  (`Util.SplitWholeNumber`), not for signs, fractions or exponents; the
  function itself parses those too. "-6 m" is therefore not proved to give
  -6, and `Scenarios.JerryBehindTom` starts from the point -6 directly.
- Measurements.Call: its precondition asks for a numeric amount wherever
  the amount is kept unconverted. Python would store a unit string as the
  amount there and fail later, in arithmetic.
- `__format__`, `__str__`, `__repr__`, `__hash__`, `__getattr__`: rendering
  and hashing are not modelled. The unit text `native_unit` builds is
  modelled and proved to parse back when the exponents are whole numbers
  (see the `Derived.DerivedMeasure.NativeUnitReadsBack` line above for float
  exponents).
- The `Unit` ABC and `register`, and `ScalarMeasure` being the integer 1:
  these are Python protocol details. A unit is a closed datatype, either a
  coefficient or a ladder.
- `minimal_class`: it reflects over the Python class hierarchy and is not
  used by the engine.
- `AggregateMeasure.__contains__` and `AggregateMeasure.native_unit` are
  one-line delegations to the derivative measure, which is modelled.
  `AggregateLinearMeasure.__getitem__` is modelled through
  `Aggregates.UnitOf`.
- Aggregates.Eq, Aggregates.ToPoint, Aggregates.Sub, Aggregates.Between,
  Aggregates.Compare: aggregates are compared as values. Two absolute views
  of one linear measure, or two basic aggregates of one measure, are equal
  here. In Python each `aggregate()` call makes a new object, compared by
  identity. The same comparison decides whether `_coalesce_to_absolute`
  accepts another point (`v.measure != self.measure`), so where Python
  declines a point of a second aggregate object, these members accept it.
- Aggregates.Eq, Aggregates.EqAsWritten: for an operand that coerces to no
  point, such as a number other than 0, Python's `other and …` returns `None`
  from `__eq__`, so `point == 5` is `None`. The model answers `false`.
- Measurements.Compare, Aggregates.Compare, Measurements.Convert,
  Aggregates.Place: amounts are one numeric type, `real`. Python keeps ints
  and floats apart, with two consequences the model does not show. First,
  `<`, `<=`, `>` and `>=` call `self.amount.__lt__(other.amount)` and its
  siblings directly. `int.__lt__(float)` returns `NotImplemented`, which is
  then the result of the method call, and Python raises TypeError. So
  `Distance.m < '2 m'` raises: the meter's amount is the int 1 and "2 m"
  coalesces to 2.0. `Temperature.absolute(300, 'K') < '400 K'` raises too,
  because the arbitrary ladder `(1, 0)` keeps the int 300. The model
  compares the two amounts. Second, `amount *= self[unit]` with a string
  amount and an int coefficient repeats the string, so `Distance('m', '3')`
  stores the amount '3'. The model answers TypeError for any unit string in
  place of the amount. That is what Python does for a float coefficient.
- Derived dynamic measures, and unit-map arithmetic on dynamic
  measurements: the code does not implement them. Arithmetic on a dynamic
  measurement fails with TypeError because its class cannot be rebuilt
  from two arguments (`Measurements.Rebuild`).
- `measure/commons/__init__.py` (the unit catalogue) is not part of this
  model. The scenarios build the measures they need, or take them as
  parameters with the needed entries.
- Recursion depth: alias chases carry `fuel`. A chase that runs out
  reports the recursion limit; a chase that completes does not depend on
  the fuel (`Basic.LookupFuel`, `Linear.LookupFuel`).

## Findings

| source | as written | input that shows it | evidently intended | confidence | as-written member | corrected member |
|---|---|---|---|---|---|---|
| measure/linear.py:49 | the offset is `o0 * s - t0` | `Ladder.from_points((32, 212), (273.15, 373.15))`: the scale is 5/9, and the offset 273.15·5/9 − 32 makes the round-trip assertion fail | offset `o0 / s - t0`, so that `to_arb(t0) == o0` (459.67 here) | not executed | Linear.FahrenheitByWaterPoints | Linear.Solve |
| measure/measure.py:417-419 | only a positive leftover is refused | "meter" looked up in `Distance / Time` is accepted as a speed, with time left at -1 | every non-zero leftover is refused, so an accepted string is an exact factorisation | not executed | Composite.BareNumeratorAccepted | Composite.MatchTokensExact |
| measure/measure.py:434 | a part fits when `n >= num`, so a negative power fits any part with remaining power ≥ it | "m/m" (meters per minute, with "m" naming both meter and minute) in `Distance / Time`: the denominator's "m" lands on distance, and the string is refused | a part fits when its remaining power has the token's sign and covers it | not executed | Composite.DenominatorMisassigned | Composite.DenominatorAssignedIntended |
| measure/measure.py:849 | `other.owner` is read, but an aggregate measurement has no `owner` attribute | `room_temp == room_temp` raises AttributeError | the same aggregate measure and the same amount | not executed | Aggregates.EqReflexive | Aggregates.Eq |
