/**
 * Composite unit strings of derived measures, such as "meter/second^2" or
 * "kg * m**2 / s2": the grammar a derived measure accepts, the tokens it
 * reads from a string, and the assignment of each token to one of the
 * measure's primitive parts.
 */
module Composite {
  import opened Base
  import opened Util

  // ---------------------------------------------------------------------------
  // The grammar
  //   unit  := terms | "1"   (then optionally)  \s* "/" \s* terms
  //   terms := term (\s* "*"? \s* term')*
  //   term  := letters (("^" | "**" | "") [1-9][0-9]*)?
  // where only the first term of each side may use "^": in the later terms the
  // pattern's "^" is an unescaped anchor, which never matches there.
  // ---------------------------------------------------------------------------

  /** A unit name and the power it is raised to. */
  datatype Token = Token(name: string, power: nat)

  predicate IsNonZeroDigit(c: char) {
    '1' <= c <= '9'
  }

  /** Unit names are non-empty runs of ASCII letters and powers are positive. */
  predicate WellFormed(t: Token) {
    && |t.name| > 0
    && (forall k | 0 <= k < |t.name| :: IsLetter(t.name[k]))
    && t.power >= 1
  }

  /**
   * The exponent that may follow a unit name ending at `i`: the power and the
   * position after it (power 1 at `i` when there is none). A marker ("^" or
   * "**") not followed by a non-zero digit leaves nothing the grammar can
   * continue with, which is None.
   */
  function Exponent(s: string, i: nat, caret: bool): (r: Option<(nat, nat)>)
    requires i <= |s|
    ensures r.Some? ==> r.value.0 >= 1 && i <= r.value.1 <= |s|
    ensures r.Some? && r.value.1 == i ==> r.value.0 == 1
  {
    var start :=
      if caret && i < |s| && s[i] == '^' then i + 1
      else if i + 1 < |s| && s[i] == '*' && s[i + 1] == '*' then i + 2
      else i;
    if start < |s| && IsNonZeroDigit(s[start]) then
      var e := RunEnd(s, start, IsDigit);
      PositiveDigits(s[start..e]);
      Some((DigitsValue(s[start..e]), e))
    else if start == i then Some((1, i))
    else None
  }

  lemma PositiveDigits(d: string)
    requires |d| > 0 && IsNonZeroDigit(d[0])
    requires forall k | 0 <= k < |d| :: IsDigit(d[k])
    ensures DigitsValue(d) >= 1
  {
    if |d| > 1 {
      PositiveDigits(d[..|d| - 1]);
    }
  }

  /** End of the separator `\s*\*?\s*` starting at `i`. */
  function SeparatorEnd(s: string, i: nat): (k: nat)
    requires i <= |s|
    ensures i <= k <= |s|
  {
    var a := RunEnd(s, i, IsSpace);
    var b := if a < |s| && s[a] == '*' then a + 1 else a;
    RunEnd(s, b, IsSpace)
  }

  /**
   * The terms making up all of `s`: a unit name, its exponent, and then either
   * the end or a separator and more terms. `first` allows the "^" marker.
   */
  function Terms(s: string, first: bool): (r: Option<seq<Token>>)
    ensures r.Some? ==> |r.value| > 0 && forall t | t in r.value :: WellFormed(t)
    decreases |s|
  {
    var l := RunEnd(s, 0, IsLetter);
    if l == 0 then None
    else match Exponent(s, l, first)
      case None => None
      case Some((p, e)) =>
        var tok := Token(s[..l], p);
        if e == |s| then Some([tok])
        else
          var k := SeparatorEnd(s, e);
          if k < |s| && IsLetter(s[k]) then
            match Terms(s[k..], false)
            case None => None
            case Some(rest) => Some([tok] + rest)
          else None
  }

  /** The numerator: "1" (no tokens) or terms. */
  function Numerator(s: string): (r: Option<seq<Token>>)
    ensures r.Some? ==> forall t | t in r.value :: WellFormed(t)
  {
    if s == "1" then Some([]) else Terms(s, true)
  }

  /** The position of the first `c` in `s`, if any. */
  function Find(s: string, c: char): (r: Option<nat>)
    ensures r.Some? ==> r.value < |s| && s[r.value] == c && c !in s[..r.value]
    ensures r.None? ==> c !in s
  {
    if s == [] then None
    else if s[0] == c then Some(0)
    else match Find(s[1..], c)
      case None => None
      case Some(j) =>
        assert s[..j + 1] == [s[0]] + s[1..][..j];
        Some(j + 1)
  }

  /** `s` without its trailing whitespace. */
  function TrimRight(s: string): (r: string)
    ensures r <= s
    ensures r == [] || !IsSpace(r[|r| - 1])
    decreases |s|
  {
    if s != [] && IsSpace(s[|s| - 1]) then TrimRight(s[..|s| - 1]) else s
  }

  /**
   * `composite_measurement_pattern.fullmatch(s)` followed by `finditer` on its
   * `pos` and `neg` groups: the tokens above and below the slash, or None when
   * the string does not match. A "1" numerator and an absent denominator give
   * no tokens.
   */
  function Parse(s: string): (r: Option<(seq<Token>, seq<Token>)>)
    ensures r.Some? ==> forall t | t in r.value.0 + r.value.1 :: WellFormed(t)
  {
    match Find(s, '/')
    case None =>
      (match Numerator(s)
       case None => None
       case Some(pos) => Some((pos, [])))
    case Some(j) =>
      var after := s[j + 1..];
      var neg := after[RunEnd(after, 0, IsSpace)..];
      match (Numerator(TrimRight(s[..j])), Terms(neg, true))
      case (Some(pos), Some(den)) => Some((pos, den))
      case _ => None
  }

  // ---------------------------------------------------------------------------
  // Assigning tokens to primitive parts (`_assign_measurements`)
  // ---------------------------------------------------------------------------

  /** A token assigned to a primitive part: (part, signed power, unit name). */
  datatype Assignment<P> = Assignment(prim: P, power: int, name: string)

  /**
   * Which rule decides the candidates and the leftovers: the code as written
   * (a part fits when its remaining power is at least the token's signed
   * power; only positive leftovers are refused), or the intended one (a part
   * fits when its remaining power has the token's sign and covers it; every
   * leftover is refused).
   */
  datatype Rule = AsWritten | Intended

  predicate Fits(rule: Rule, remaining: int, num: int) {
    match rule
    case AsWritten => remaining >= num
    case Intended => if num > 0 then remaining >= num else remaining <= num
  }

  predicate Unfinished(rule: Rule, remaining: int) {
    match rule
    case AsWritten => remaining > 0
    case Intended => remaining != 0
  }

  /** Whether the part `p` has a unit called `name` (`name in p`). */
  predicate Knows<P(==)>(known: map<P, set<string>>, p: P, name: string) {
    p in known && name in known[p]
  }

  /** The first part, in `keys` order, that fits `num` and knows `name`. */
  function FirstFit<P(==)>(rule: Rule, keys: seq<P>, left: map<P, int>, num: int, name: string,
                       known: map<P, set<string>>): (r: Option<P>)
    ensures r.Some? ==> r.value in keys && r.value in left && Fits(rule, left[r.value], num) && Knows(known, r.value, name)
    ensures r.None? ==> forall p | p in keys && p in left :: !(Fits(rule, left[p], num) && Knows(known, p, name))
  {
    if keys == [] then None
    else if keys[0] in left && Fits(rule, left[keys[0]], num) && Knows(known, keys[0], name) then Some(keys[0])
    else FirstFit(rule, keys[1..], left, num, name, known)
  }

  /** The total signed power assigned to `p`. */
  function Total<P(==)>(done: seq<Assignment<P>>, p: P): int {
    if done == [] then 0
    else
      var last := done[|done| - 1];
      Total(done[..|done| - 1], p) + (if last.prim == p then last.power else 0)
  }

  /**
   * `_assign_measurements(part, factor, assigned, left)`: each token, with its
   * power times `factor`, goes to the first fitting part that knows its name,
   * whose remaining power drops by the token's; a token no part takes is a
   * KeyError of its name.
   */
  function AssignAll<P(==)>(rule: Rule, tokens: seq<Token>, factor: int, known: map<P, set<string>>,
                        done: seq<Assignment<P>>, left: OMap<P>): (r: Result<(seq<Assignment<P>>, OMap<P>)>)
    ensures r.Err? ==> exists t | t in tokens :: r.error == KeyError(t.name)
    decreases |tokens|
  {
    if tokens == [] then Ok((done, left))
    else
      var num := tokens[0].power * factor;
      var name := tokens[0].name;
      match FirstFit(rule, left.keys, left.vals, num, name, known)
      case None => Err(KeyError(name))
      case Some(p) =>
        var r := AssignAll(rule, tokens[1..], factor, known, done + [Assignment(p, num, name)],
                           OMap(left.keys, left.vals[p := left.vals[p] - num]));
        assert r.Err? ==> exists t | t in tokens :: r.error == KeyError(t.name) by {
          if r.Err? {
            var t :| t in tokens[1..] && r.error == KeyError(t.name);
            assert t in tokens;
          }
        }
        r
  }

  /** A token no part takes makes `AssignAll` a KeyError of its name. */
  lemma AssignAllNone<P>(rule: Rule, tokens: seq<Token>, factor: int, known: map<P, set<string>>,
                         done: seq<Assignment<P>>, left: OMap<P>)
    requires tokens != []
    requires FirstFit(rule, left.keys, left.vals, tokens[0].power * factor, tokens[0].name, known).None?
    ensures AssignAll(rule, tokens, factor, known, done, left) == Err(KeyError(tokens[0].name))
  {
  }

  /** A token taken by the part `p` is recorded, and `AssignAll` goes on with the rest. */
  lemma AssignAllSome<P>(rule: Rule, tokens: seq<Token>, factor: int, known: map<P, set<string>>,
                         done: seq<Assignment<P>>, left: OMap<P>, p: P, num: int)
    requires tokens != [] && num == tokens[0].power * factor
    requires FirstFit(rule, left.keys, left.vals, num, tokens[0].name, known) == Some(p)
    ensures p in left.vals
    ensures AssignAll(rule, tokens, factor, known, done, left)
         == AssignAll(rule, tokens[1..], factor, known, done + [Assignment(p, num, tokens[0].name)],
                      OMap(left.keys, left.vals[p := left.vals[p] - num]))
  {
  }

  /** The inner search of `_assign_measurements`: the first part that fits `num` and knows `name`. */
  method FindFit<P(==)>(rule: Rule, left: OMap<P>, num: int, name: string, known: map<P, set<string>>)
    returns (found: Option<P>)
    ensures found == FirstFit(rule, left.keys, left.vals, num, name, known)
  {
    found := None;
    var j := 0;
    while j < |left.keys| && found.None?
      invariant 0 <= j <= |left.keys|
      invariant found.None? ==> FirstFit(rule, left.keys[j..], left.vals, num, name, known)
                                == FirstFit(rule, left.keys, left.vals, num, name, known)
      invariant found.Some? ==> found == FirstFit(rule, left.keys, left.vals, num, name, known)
    {
      var p := left.keys[j];
      if p in left.vals && Fits(rule, left.vals[p], num) && Knows(known, p, name) {
        found := Some(p);
      }
      assert left.keys[j..][1..] == left.keys[j + 1..];
      j := j + 1;
    }
    assert found.None? ==> left.keys[j..] == [];
  }

  /**
   * The loop of `_assign_measurements`: for each token, find the part it goes
   * to, record the assignment and lower that part's remaining power.
   */
  method AssignMeasurements<P(==)>(rule: Rule, tokens: seq<Token>, factor: int, known: map<P, set<string>>,
                                   done0: seq<Assignment<P>>, left0: OMap<P>)
    returns (r: Result<(seq<Assignment<P>>, OMap<P>)>)
    ensures r == AssignAll(rule, tokens, factor, known, done0, left0)
  {
    var done := done0;
    var left := left0;
    var i := 0;
    while i < |tokens|
      invariant 0 <= i <= |tokens|
      invariant AssignAll(rule, tokens[i..], factor, known, done, left) == AssignAll(rule, tokens, factor, known, done0, left0)
    {
      var num := tokens[i].power * factor;
      var name := tokens[i].name;
      var found := FindFit(rule, left, num, name, known);
      if found.None? {
        AssignAllNone(rule, tokens[i..], factor, known, done, left);
        return Err(KeyError(name));
      }
      var p := found.value;
      AssignAllSome(rule, tokens[i..], factor, known, done, left, p, num);
      assert tokens[i..][1..] == tokens[i + 1..];
      done := done + [Assignment(p, num, name)];
      left := OMap(left.keys, left.vals[p := left.vals[p] - num]);
      i := i + 1;
    }
    return Ok((done, left));
  }

  /** Why a string failed to match: the FalseWrapper's exception. */
  datatype Failure<P> = Unparsable(text: string) | NoUnit(name: string) | Leftover(prim: P)

  /** What `__contains__` returns for a non-alias string: the assignment list, or a false wrapper. */
  datatype Outcome<P> = Assigned(assignments: seq<Assignment<P>>) | Rejected(reason: FalseWrapper<Failure<P>>)

  /** The first part, in `keys` order, whose leftover the rule refuses. */
  function FirstUnfinished<P(==)>(rule: Rule, keys: seq<P>, left: map<P, int>): (r: Option<P>)
    ensures r.Some? ==> r.value in keys && r.value in left && Unfinished(rule, left[r.value])
    ensures r.None? ==> forall p | p in keys && p in left :: !Unfinished(rule, left[p])
  {
    if keys == [] then None
    else if keys[0] in left && Unfinished(rule, left[keys[0]]) then Some(keys[0])
    else FirstUnfinished(rule, keys[1..], left)
  }

  /** The leftover check of `__contains__`: the first part whose remaining power the rule refuses. */
  method FindUnfinished<P(==)>(rule: Rule, left: OMap<P>) returns (found: Option<P>)
    ensures found == FirstUnfinished(rule, left.keys, left.vals)
  {
    var i := 0;
    while i < |left.keys|
      invariant 0 <= i <= |left.keys|
      invariant FirstUnfinished(rule, left.keys[i..], left.vals) == FirstUnfinished(rule, left.keys, left.vals)
    {
      var p := left.keys[i];
      assert left.keys[i..][1..] == left.keys[i + 1..];
      if p in left.vals && Unfinished(rule, left.vals[p]) {
        return Some(p);
      }
      i := i + 1;
    }
    return None;
  }

  /**
   * `DerivedMeasure.__contains__` for a string that is not an alias: parse it,
   * then match its tokens.
   */
  function Match<P(==)>(rule: Rule, item: string, parts: OMap<P>, known: map<P, set<string>>): Outcome<P> {
    match Parse(item)
    case None => Rejected(FalseWrapper(Unparsable(item)))
    case Some((pos, neg)) => MatchTokens(rule, pos, neg, parts, known)
  }

  /**
   * Assign the numerator's tokens with factor 1 and the denominator's with
   * factor -1, starting from the measure's parts, then refuse leftovers.
   */
  function MatchTokens<P(==)>(rule: Rule, pos: seq<Token>, neg: seq<Token>, parts: OMap<P>,
                              known: map<P, set<string>>): Outcome<P> {
    match AssignAll(rule, pos, 1, known, [], parts)
    case Err(e) => Rejected(FalseWrapper(NoUnit(e.key)))
    case Ok((a1, l1)) =>
      match AssignAll(rule, neg, -1, known, a1, l1)
      case Err(e) => Rejected(FalseWrapper(NoUnit(e.key)))
      case Ok((a2, l2)) =>
        match FirstUnfinished(rule, l2.keys, l2.vals)
        case Some(p) => Rejected(FalseWrapper(Leftover(p)))
        case None => Assigned(a2)
  }

  /** A string that parses is matched by its tokens; one that does not is refused as unparsable. */
  lemma MatchParsed<P>(rule: Rule, item: string, parts: OMap<P>, known: map<P, set<string>>)
    ensures Parse(item).None? ==> Match(rule, item, parts, known) == Rejected(FalseWrapper(Unparsable(item)))
    ensures Parse(item).Some? ==>
      Match(rule, item, parts, known) == MatchTokens(rule, Parse(item).value.0, Parse(item).value.1, parts, known)
  {
  }

  /** The body of `__contains__` for a string that is not an alias: the parse, then the assignment. */
  method MatchString<P(==)>(rule: Rule, item: string, parts: OMap<P>, known: map<P, set<string>>) returns (o: Outcome<P>)
    ensures o == Match(rule, item, parts, known)
  {
    MatchParsed(rule, item, parts, known);
    var parsed := Parse(item);
    if parsed.None? {
      return Rejected(FalseWrapper(Unparsable(item)));
    }
    o := AssignTokens(rule, parsed.value.0, parsed.value.1, parts, known);
  }

  /** The body of `__contains__` after the parse: both assignment loops, then the leftover check. */
  method AssignTokens<P(==)>(rule: Rule, pos: seq<Token>, neg: seq<Token>, parts: OMap<P>,
                            known: map<P, set<string>>) returns (o: Outcome<P>)
    ensures o == MatchTokens(rule, pos, neg, parts, known)
  {
    var r1 := AssignMeasurements(rule, pos, 1, known, [], parts);
    if r1.Err? {
      return Rejected(FalseWrapper(NoUnit(r1.error.key)));
    }
    var (a1, l1) := r1.value;
    var r2 := AssignMeasurements(rule, neg, -1, known, a1, l1);
    if r2.Err? {
      return Rejected(FalseWrapper(NoUnit(r2.error.key)));
    }
    var (a2, l2) := r2.value;
    var unfinished := FindUnfinished(rule, l2);
    if unfinished.Some? {
      return Rejected(FalseWrapper(Leftover(unfinished.value)));
    }
    return Assigned(a2);
  }

  // ---------------------------------------------------------------------------
  // What an assignment accounts for
  // ---------------------------------------------------------------------------

  /**
   * Every step of an assignment keeps the books: the remaining power of each
   * part is its starting power minus what has been assigned to it, every
   * assignment names a part and a unit that part knows, and the keys never change.
   */
  ghost predicate Books<P>(parts: OMap<P>, known: map<P, set<string>>, done: seq<Assignment<P>>, left: OMap<P>) {
    && left.keys == parts.keys
    && left.vals.Keys == parts.vals.Keys
    && (forall p | p in left.vals :: left.vals[p] == parts.vals[p] - Total(done, p))
    && (forall a | a in done :: a.prim in parts.vals && Knows(known, a.prim, a.name))
  }

  lemma TotalAppend<P>(done: seq<Assignment<P>>, a: Assignment<P>, p: P)
    ensures Total(done + [a], p) == Total(done, p) + (if a.prim == p then a.power else 0)
  {
    assert (done + [a])[..|done|] == done;
  }

  lemma {:induction false} AssignAllBooks<P>(rule: Rule, tokens: seq<Token>, factor: int, known: map<P, set<string>>,
                                             parts: OMap<P>, done: seq<Assignment<P>>, left: OMap<P>)
    requires Books(parts, known, done, left)
    requires AssignAll(rule, tokens, factor, known, done, left).Ok?
    ensures var r := AssignAll(rule, tokens, factor, known, done, left).value;
      Books(parts, known, r.0, r.1)
    decreases |tokens|
  {
    if tokens != [] {
      var num := tokens[0].power * factor;
      var name := tokens[0].name;
      var p := FirstFit(rule, left.keys, left.vals, num, name, known).value;
      var a := Assignment(p, num, name);
      var left' := OMap(left.keys, left.vals[p := left.vals[p] - num]);
      forall q | q in left'.vals
        ensures left'.vals[q] == parts.vals[q] - Total(done + [a], q)
      {
        TotalAppend(done, a, q);
      }
      AssignAllBooks(rule, tokens[1..], factor, known, parts, done + [a], left');
    }
  }

  /**
   * Under either rule every assignment of an accepted string names one of the
   * measure's parts and a unit that part knows.
   */
  lemma MatchKnown<P>(rule: Rule, item: string, parts: OMap<P>, known: map<P, set<string>>)
    requires Match(rule, item, parts, known).Assigned?
    ensures forall a | a in Match(rule, item, parts, known).assignments ::
      a.prim in parts.vals && Knows(known, a.prim, a.name)
  {
    var (pos, neg) := Parse(item).value;
    AssignAllBooks(rule, pos, 1, known, parts, [], parts);
    var (a1, l1) := AssignAll(rule, pos, 1, known, [], parts).value;
    AssignAllBooks(rule, neg, -1, known, parts, a1, l1);
  }

  /**
   * Under the intended rule a string is accepted only as an exact
   * factorisation: the powers assigned to each part add up to the part's own
   * power, and each token lands on a part that knows its name.
   */
  lemma MatchTokensExact<P>(pos: seq<Token>, neg: seq<Token>, parts: OMap<P>, known: map<P, set<string>>)
    requires parts.Valid()
    requires MatchTokens(Intended, pos, neg, parts, known).Assigned?
    ensures var asg := MatchTokens(Intended, pos, neg, parts, known).assignments;
      && (forall p | p in parts.vals :: Total(asg, p) == parts.vals[p])
      && (forall a | a in asg :: a.prim in parts.vals && Knows(known, a.prim, a.name))
  {
    AssignAllBooks(Intended, pos, 1, known, parts, [], parts);
    var (a1, l1) := AssignAll(Intended, pos, 1, known, [], parts).value;
    AssignAllBooks(Intended, neg, -1, known, parts, a1, l1);
    var (a2, l2) := AssignAll(Intended, neg, -1, known, a1, l1).value;
    assert FirstUnfinished(Intended, l2.keys, l2.vals).None?;
    forall p | p in parts.vals
      ensures Total(a2, p) == parts.vals[p]
    {
      assert p in l2.keys && p in l2.vals;
      assert !Unfinished(Intended, l2.vals[p]);
    }
  }

  /**
   * Under the rule as written an accepted string may overshoot: the powers
   * assigned to each part are its own power minus a leftover that is at most
   * zero, and each token lands on a part that knows its name.
   */
  lemma MatchTokensWritten<P>(pos: seq<Token>, neg: seq<Token>, parts: OMap<P>, known: map<P, set<string>>)
    requires parts.Valid()
    requires MatchTokens(AsWritten, pos, neg, parts, known).Assigned?
    ensures var asg := MatchTokens(AsWritten, pos, neg, parts, known).assignments;
      && (forall p | p in parts.vals :: parts.vals[p] - Total(asg, p) <= 0)
      && (forall a | a in asg :: a.prim in parts.vals && Knows(known, a.prim, a.name))
  {
    AssignAllBooks(AsWritten, pos, 1, known, parts, [], parts);
    var (a1, l1) := AssignAll(AsWritten, pos, 1, known, [], parts).value;
    AssignAllBooks(AsWritten, neg, -1, known, parts, a1, l1);
    var (a2, l2) := AssignAll(AsWritten, neg, -1, known, a1, l1).value;
    assert FirstUnfinished(AsWritten, l2.keys, l2.vals).None?;
    forall p | p in parts.vals
      ensures parts.vals[p] - Total(a2, p) <= 0
    {
      assert p in l2.keys && p in l2.vals;
      assert !Unfinished(AsWritten, l2.vals[p]);
    }
  }

  /**
   * The assignments follow the tokens: the numerator's first, with their
   * powers, then the denominator's, with their powers negated.
   */
  lemma MatchTokensOrder<P>(rule: Rule, pos: seq<Token>, neg: seq<Token>, parts: OMap<P>, known: map<P, set<string>>)
    requires MatchTokens(rule, pos, neg, parts, known).Assigned?
    ensures var asg := MatchTokens(rule, pos, neg, parts, known).assignments;
      && |asg| == |pos| + |neg|
      && (forall i | 0 <= i < |pos| :: asg[i].name == pos[i].name && asg[i].power == pos[i].power)
      && (forall i | 0 <= i < |neg| :: asg[|pos| + i].name == neg[i].name && asg[|pos| + i].power + neg[i].power == 0)
  {
    AssignOrder(rule, pos, 1, known, [], parts);
    var (a1, l1) := AssignAll(rule, pos, 1, known, [], parts).value;
    AssignOrder(rule, neg, -1, known, a1, l1);
    var (a2, l2) := AssignAll(rule, neg, -1, known, a1, l1).value;
    forall i | 0 <= i < |pos|
      ensures a2[i].name == pos[i].name && a2[i].power == pos[i].power
    {
      assert a2[i] == a2[..|a1|][i];
    }
    forall i | 0 <= i < |neg|
      ensures a2[|pos| + i].name == neg[i].name && a2[|pos| + i].power + neg[i].power == 0
    {
      assert a2[|a1| + i].power == neg[i].power * -1;
    }
  }

  lemma {:induction false} AssignOrder<P>(rule: Rule, tokens: seq<Token>, factor: int, known: map<P, set<string>>,
                                          done: seq<Assignment<P>>, left: OMap<P>)
    requires AssignAll(rule, tokens, factor, known, done, left).Ok?
    ensures var r := AssignAll(rule, tokens, factor, known, done, left).value;
      && |r.0| == |done| + |tokens|
      && r.0[..|done|] == done
      && (forall i | 0 <= i < |tokens| :: r.0[|done| + i].name == tokens[i].name
                                        && r.0[|done| + i].power == tokens[i].power * factor)
    decreases |tokens|
  {
    if tokens != [] {
      var num := tokens[0].power * factor;
      var name := tokens[0].name;
      var p := FirstFit(rule, left.keys, left.vals, num, name, known).value;
      var a := Assignment(p, num, name);
      var left' := OMap(left.keys, left.vals[p := left.vals[p] - num]);
      AssignOrder(rule, tokens[1..], factor, known, done + [a], left');
      var r := AssignAll(rule, tokens[1..], factor, known, done + [a], left').value;
      assert r.0[..|done| + 1][..|done|] == done;
    }
  }

  /** Under the rule as written the remaining powers never go negative-to-positive by mistake: each step leaves `left[p] >= 0`. */
  lemma AssertionNeverFails<P>(keys: seq<P>, left: map<P, int>, num: int, name: string, known: map<P, set<string>>)
    requires FirstFit(AsWritten, keys, left, num, name, known).Some?
    ensures var p := FirstFit(AsWritten, keys, left, num, name, known).value; left[p] - num >= 0
  {
  }

  // ---------------------------------------------------------------------------
  // Writing a composite unit (`DerivedMeasure.native_unit`) and reading it back
  // ---------------------------------------------------------------------------

  function DigitChar(d: nat): (c: char)
    requires d < 10
    ensures IsDigit(c) && DigitValue(c) == d
  {
    ('0' as int + d) as char
  }

  /** The decimal numeral of `n`, as `str(n)` writes it. */
  function Numeral(n: nat): (r: string)
    ensures |r| > 0 && forall k | 0 <= k < |r| :: IsDigit(r[k])
    ensures n >= 1 ==> IsNonZeroDigit(r[0])
    ensures DigitsValue(r) == n
  {
    if n < 10 then [DigitChar(n)]
    else
      var r := Numeral(n / 10) + [DigitChar(n % 10)];
      assert r[..|r| - 1] == Numeral(n / 10);
      r
  }

  /** A unit name with its power: "m" for power 1, "m**2" otherwise. */
  function TermText(t: Token): string {
    t.name + (if t.power == 1 then "" else "**" + Numeral(t.power))
  }

  /** Terms joined by a separator (" * ", or "*" when compact). */
  function JoinTerms(ts: seq<Token>, sep: string): string
    decreases |ts|
  {
    if ts == [] then ""
    else if |ts| == 1 then TermText(ts[0])
    else TermText(ts[0]) + sep + JoinTerms(ts[1..], sep)
  }

  /**
   * `native_unit(compact)` given the numerator's and the denominator's terms:
   * "1" for an empty numerator, then the denominator after " / " (or "/"),
   * if there is one.
   */
  function Format(pos: seq<Token>, neg: seq<Token>, compact: bool): string {
    var sep := if compact then "*" else " * ";
    var top := if pos == [] then "1" else JoinTerms(pos, sep);
    if neg == [] then top else top + (if compact then "/" else " / ") + JoinTerms(neg, sep)
  }

  /** The characters a joined list of well-formed terms is made of. */
  predicate TermChar(c: char) {
    IsLetter(c) || IsDigit(c) || c == '*' || c == ' '
  }

  /** A well-formed term's text starts with a letter, ends with a letter or digit, and is made of term characters. */
  lemma TermTextChars(t: Token)
    requires WellFormed(t)
    ensures var text := TermText(t);
      && |text| > 0 && IsLetter(text[0])
      && (IsLetter(text[|text| - 1]) || IsDigit(text[|text| - 1]))
      && forall k | 0 <= k < |text| :: TermChar(text[k])
  {
    var text := TermText(t);
    assert text[0] == t.name[0];
    forall k | 0 <= k < |text|
      ensures TermChar(text[k])
    {
      if k >= |t.name| {
        var num := Numeral(t.power);
        assert t.power != 1;
        assert text == t.name + "**" + num;
        if k >= |t.name| + 2 {
          assert text[k] == num[k - |t.name| - 2];
        }
      }
    }
    if t.power != 1 {
      var num := Numeral(t.power);
      assert text[|text| - 1] == num[|num| - 1];
    }
  }

  /** Two strings of term characters joined by a separator of term characters. */
  lemma JoinedChars(text: string, sep: string, rest: string)
    requires forall k | 0 <= k < |text| :: TermChar(text[k])
    requires forall k | 0 <= k < |sep| :: TermChar(sep[k])
    requires forall k | 0 <= k < |rest| :: TermChar(rest[k])
    ensures var j := text + sep + rest; forall k | 0 <= k < |j| :: TermChar(j[k])
  {
    var j := text + sep + rest;
    forall k | 0 <= k < |j|
      ensures TermChar(j[k])
    {
      if k >= |text| + |sep| {
        assert j[k] == rest[k - |text| - |sep|];
      } else if k >= |text| {
        assert j[k] == sep[k - |text|];
      } else {
        assert j[k] == text[k];
      }
    }
  }

  lemma {:induction false} JoinChars(ts: seq<Token>, compact: bool)
    requires forall t | t in ts :: WellFormed(t)
    ensures var j := JoinTerms(ts, if compact then "*" else " * ");
      && (forall k | 0 <= k < |j| :: TermChar(j[k]))
      && (ts != [] ==> |j| > 0 && IsLetter(j[0]) && (IsLetter(j[|j| - 1]) || IsDigit(j[|j| - 1])))
    decreases |ts|
  {
    var sep := if compact then "*" else " * ";
    if ts != [] {
      var t := ts[0];
      assert WellFormed(t) by { assert t in ts; }
      TermTextChars(t);
      var text := TermText(t);
      if |ts| > 1 {
        assert forall u | u in ts[1..] :: WellFormed(u) by {
          forall u | u in ts[1..] ensures WellFormed(u) { assert u in ts; }
        }
        JoinChars(ts[1..], compact);
        var rest := JoinTerms(ts[1..], sep);
        assert TermChar(sep[0]);
        assert forall k | 0 <= k < |sep| :: TermChar(sep[k]);
        JoinedChars(text, sep, rest);
        var j := text + sep + rest;
        assert JoinTerms(ts, sep) == j;
        assert j[|j| - 1] == rest[|rest| - 1];
      }
    }
  }

  /** A term's name ends where its text is followed by nothing, a space or a star. */
  lemma NameEnd(s: string, t: Token, after: string)
    requires WellFormed(t)
    requires s == TermText(t) + after
    requires after == [] || after[0] == ' ' || after[0] == '*'
    ensures RunEnd(s, 0, IsLetter) == |t.name| && s[..|t.name|] == t.name
  {
    var l := |t.name|;
    assert s[..l] == t.name;
    if l < |s| {
      if t.power == 1 {
        assert s[l] == after[0];
      } else {
        assert s[l] == '*';
      }
    }
    RunEndAt(s, 0, IsLetter, l);
  }

  /**
   * A term's exponent is read back from its text when the text is followed by
   * nothing, a space, or a single star and a letter.
   */
  lemma ExponentOfTerm(s: string, t: Token, after: string, first: bool)
    requires WellFormed(t)
    requires s == TermText(t) + after
    requires after == [] || after[0] == ' ' || (after[0] == '*' && |after| > 1 && IsLetter(after[1]))
    ensures Exponent(s, |t.name|, first) == Some((t.power, |TermText(t)|))
  {
    var text := TermText(t);
    var l := |t.name|;
    var e := |text|;
    if t.power == 1 {
      if l < |s| {
        assert s[l] == after[0];
        if l + 1 < |s| && s[l] == '*' {
          assert s[l + 1] == after[1];
        }
      }
    } else {
      var num := Numeral(t.power);
      assert text == t.name + "**" + num;
      assert s[l] == '*' && s[l + 1] == '*';
      assert s[l + 2..e] == num;
      forall k | l + 2 <= k < e
        ensures IsDigit(s[k])
      {
        assert s[k] == num[k - l - 2];
      }
      if e < |s| {
        assert s[e] == after[0];
      }
      RunEndAt(s, l + 2, IsDigit, e);
    }
  }

  /** The separator between two terms is skipped up to the next term's first letter. */
  lemma SeparatorOf(s: string, e: nat, compact: bool, next: string)
    requires e <= |s|
    requires s[e..] == (if compact then "*" else " * ") + next
    requires |next| > 0 && IsLetter(next[0])
    ensures SeparatorEnd(s, e) == e + (if compact then 1 else 3)
  {
    if compact {
      assert s[e] == '*';
      RunEndAt(s, e, IsSpace, e);
      assert s[e + 1] == next[0];
      RunEndAt(s, e + 1, IsSpace, e + 1);
    } else {
      assert s[e] == ' ' && s[e + 1] == '*' && s[e + 2] == ' ';
      assert s[e + 3] == next[0];
      RunEndAt(s, e, IsSpace, e + 1);
      RunEndAt(s, e + 2, IsSpace, e + 3);
    }
  }

  lemma JoinStart(ts: seq<Token>, sep: string)
    requires |ts| > 0 && WellFormed(ts[0])
    ensures var j := JoinTerms(ts, sep); |j| > 0 && IsLetter(j[0])
  {
    var text := TermText(ts[0]);
    assert text[0] == ts[0].name[0];
    if |ts| > 1 {
      assert JoinTerms(ts, sep) == text + (sep + JoinTerms(ts[1..], sep));
    }
  }

  /** One unfolding of `Terms` for a last term. */
  lemma TermsLast(s: string, first: bool, l: nat, p: nat)
    requires 0 < l <= |s|
    requires RunEnd(s, 0, IsLetter) == l
    requires Exponent(s, l, first) == Some((p, |s|))
    ensures Terms(s, first) == Some([Token(s[..l], p)])
  {
  }

  /** One unfolding of `Terms` for a term followed by more terms. */
  lemma TermsNext(s: string, first: bool, l: nat, p: nat, e: nat, rest: seq<Token>)
    requires 0 < l <= e < |s|
    requires RunEnd(s, 0, IsLetter) == l
    requires Exponent(s, l, first) == Some((p, e))
    requires SeparatorEnd(s, e) < |s| && IsLetter(s[SeparatorEnd(s, e)])
    requires Terms(s[SeparatorEnd(s, e)..], false) == Some(rest)
    ensures Terms(s, first) == Some([Token(s[..l], p)] + rest)
  {
  }

  /** A single term's text parses back to the term. */
  lemma TermsOfOne(t: Token, first: bool)
    requires WellFormed(t)
    ensures Terms(TermText(t), first) == Some([t])
  {
    var s := TermText(t);
    assert s == s + "";
    NameEnd(s, t, "");
    ExponentOfTerm(s, t, "", first);
    TermsLast(s, first, |t.name|, t.power);
  }

  /** Reading the first of several joined terms: its name, its exponent and the separator after it. */
  lemma JoinHead(ts: seq<Token>, first: bool, compact: bool)
    requires |ts| > 1 && forall t | t in ts :: WellFormed(t)
    ensures var s := JoinTerms(ts, if compact then "*" else " * ");
      var l := |ts[0].name|;
      var e := |TermText(ts[0])|;
      && 0 < l <= e < |s|
      && RunEnd(s, 0, IsLetter) == l && s[..l] == ts[0].name
      && Exponent(s, l, first) == Some((ts[0].power, e))
      && SeparatorEnd(s, e) < |s| && IsLetter(s[SeparatorEnd(s, e)])
      && s[SeparatorEnd(s, e)..] == JoinTerms(ts[1..], if compact then "*" else " * ")
  {
    var sep := if compact then "*" else " * ";
    var s := JoinTerms(ts, sep);
    var t := ts[0];
    assert WellFormed(t) by { assert t in ts; }
    var text := TermText(t);
    var next := JoinTerms(ts[1..], sep);
    assert ts[1..][0] in ts;
    JoinStart(ts[1..], sep);
    var after := sep + next;
    assert s == text + after;
    assert after[|sep|] == next[0];
    NameEnd(s, t, after);
    ExponentOfTerm(s, t, after, first);
    var e := |text|;
    assert s[e..] == sep + next;
    SeparatorOf(s, e, compact, next);
    var k := e + |sep|;
    assert s[k..] == next;
  }

  /** A joined list of well-formed terms parses back to the same terms. */
  lemma {:induction false} TermsOfJoin(ts: seq<Token>, first: bool, compact: bool)
    requires |ts| > 0 && forall t | t in ts :: WellFormed(t)
    ensures Terms(JoinTerms(ts, if compact then "*" else " * "), first) == Some(ts)
    decreases |ts|
  {
    var sep := if compact then "*" else " * ";
    var t := ts[0];
    assert WellFormed(t) by { assert t in ts; }
    if |ts| == 1 {
      TermsOfOne(t, first);
      assert ts == [t];
    } else {
      var s := JoinTerms(ts, sep);
      JoinHead(ts, first, compact);
      assert forall u | u in ts[1..] :: WellFormed(u) by {
        forall u | u in ts[1..] ensures WellFormed(u) { assert u in ts; }
      }
      TermsOfJoin(ts[1..], false, compact);
      TermsNext(s, first, |t.name|, t.power, |TermText(t)|, ts[1..]);
      assert ts == [t] + ts[1..];
    }
  }

  lemma TrimRightOf(x: string, pad: string)
    requires x != [] && !IsSpace(x[|x| - 1])
    requires forall k | 0 <= k < |pad| :: IsSpace(pad[k])
    ensures TrimRight(x + pad) == x
    decreases |pad|
  {
    if pad != [] {
      assert (x + pad)[..|x + pad| - 1] == x + pad[..|pad| - 1];
      TrimRightOf(x, pad[..|pad| - 1]);
    } else {
      assert x + pad == x;
    }
  }

  /** The numerator as `native_unit` writes it. */
  function Top(pos: seq<Token>, compact: bool): string {
    if pos == [] then "1" else JoinTerms(pos, if compact then "*" else " * ")
  }

  lemma TopFacts(pos: seq<Token>, compact: bool)
    requires forall t | t in pos :: WellFormed(t)
    ensures var top := Top(pos, compact);
      && Numerator(top) == Some(pos)
      && '/' !in top
      && |top| > 0 && !IsSpace(top[|top| - 1])
  {
    var top := Top(pos, compact);
    if pos != [] {
      JoinChars(pos, compact);
      assert top != "1" by { assert IsLetter(top[0]); }
      TermsOfJoin(pos, true, compact);
      forall k | 0 <= k < |top| ensures top[k] != '/' { assert TermChar(top[k]); }
    }
  }

  /** One unfolding of `Parse` for a string with a slash. */
  lemma ParseAt(s: string, j: nat, pos: seq<Token>, neg: seq<Token>)
    requires Find(s, '/') == Some(j)
    requires Numerator(TrimRight(s[..j])) == Some(pos)
    requires var after := s[j + 1..]; Terms(after[RunEnd(after, 0, IsSpace)..], true) == Some(neg)
    ensures Parse(s) == Some((pos, neg))
  {
  }

  /** Where the slash is in a written unit, and what lies on each side of it. */
  lemma SlashFacts(top: string, compact: bool, bottom: string)
    requires '/' !in top && |top| > 0 && !IsSpace(top[|top| - 1])
    requires |bottom| > 0 && IsLetter(bottom[0])
    ensures var s := top + (if compact then "/" else " / ") + bottom;
      var j := |top| + (if compact then 0 else 1);
      && Find(s, '/') == Some(j)
      && TrimRight(s[..j]) == top
      && s[j + 1..][RunEnd(s[j + 1..], 0, IsSpace)..] == bottom
  {
    var s := top + (if compact then "/" else " / ") + bottom;
    var j := |top| + (if compact then 0 else 1);
    var pad := if compact then "" else " ";
    assert s[..j] == top + pad;
    assert s[j] == '/';
    assert '/' !in s[..j];
    TrimRightOf(top, pad);
    var after := s[j + 1..];
    assert after == pad + bottom;
    if compact {
      RunEndAt(after, 0, IsSpace, 0);
    } else {
      assert after[1] == bottom[0];
      RunEndAt(after, 0, IsSpace, 1);
      assert after[1..] == bottom;
    }
  }

  /**
   * The native unit of a derived measure reads back as the same terms: when
   * every unit name is a run of letters, parsing the written form, compact or
   * not, gives the numerator's and the denominator's terms unchanged.
   */
  lemma FormatParses(pos: seq<Token>, neg: seq<Token>, compact: bool)
    requires forall t | t in pos + neg :: WellFormed(t)
    ensures Parse(Format(pos, neg, compact)) == Some((pos, neg))
  {
    assert forall t | t in pos :: WellFormed(t) by {
      forall t | t in pos ensures WellFormed(t) { assert t in pos + neg; }
    }
    assert forall t | t in neg :: WellFormed(t) by {
      forall t | t in neg ensures WellFormed(t) { assert t in pos + neg; }
    }
    if neg == [] {
      FormatParsesWhole(pos, compact);
    } else {
      FormatParsesSlash(pos, neg, compact);
    }
  }

  lemma FormatParsesWhole(pos: seq<Token>, compact: bool)
    requires forall t | t in pos :: WellFormed(t)
    ensures Parse(Format(pos, [], compact)) == Some((pos, []))
  {
    var top := Top(pos, compact);
    TopFacts(pos, compact);
    assert Format(pos, [], compact) == top;
    assert Find(top, '/') == None;
  }

  lemma FormatParsesSlash(pos: seq<Token>, neg: seq<Token>, compact: bool)
    requires forall t | t in pos :: WellFormed(t)
    requires neg != [] && forall t | t in neg :: WellFormed(t)
    ensures Parse(Format(pos, neg, compact)) == Some((pos, neg))
  {
    var top := Top(pos, compact);
    TopFacts(pos, compact);
    var bottom := JoinTerms(neg, if compact then "*" else " * ");
    assert neg[0] in neg;
    JoinStart(neg, if compact then "*" else " * ");
    SlashFacts(top, compact, bottom);
    TermsOfJoin(neg, true, compact);
    var s := top + (if compact then "/" else " / ") + bottom;
    assert Format(pos, neg, compact) == s;
    ParseAt(s, |top| + (if compact then 0 else 1), pos, neg);
  }

  // ---------------------------------------------------------------------------
  // Examples
  // ---------------------------------------------------------------------------

  /** One token, assigned to the first part that fits. */
  lemma AssignSingle<P>(rule: Rule, t: Token, factor: int, known: map<P, set<string>>,
                        done: seq<Assignment<P>>, left: OMap<P>, p: P)
    requires FirstFit(rule, left.keys, left.vals, t.power * factor, t.name, known) == Some(p)
    ensures AssignAll(rule, [t], factor, known, done, left)
         == Ok((done + [Assignment(p, t.power * factor, t.name)],
                OMap(left.keys, left.vals[p := left.vals[p] - t.power * factor])))
  {
    assert [t][1..] == [];
  }

  /**
   * Distance/Time, with "meter" known to distance and "second" to time: as
   * written, "meter" alone is accepted (time's leftover -1 is not positive);
   * under the intended rule it is refused because time is left unassigned.
   */
  lemma BareNumeratorAccepted()
    ensures var parts := OMap(["distance", "time"], map["distance" := 1, "time" := -1]);
      var known := map["distance" := {"meter"}, "time" := {"second"}];
      && Match(AsWritten, "meter", parts, known) == Assigned([Assignment("distance", 1, "meter")])
      && Match(Intended, "meter", parts, known) == Rejected(FalseWrapper(Leftover("time")))
  {
    var meter := Token("meter", 1);
    assert WellFormed(meter);
    FormatParses([meter], [], false);
    assert Format([meter], [], false) == "meter";
    BareMeter(AsWritten);
    BareMeter(Intended);
  }

  /** "meter" alone against Distance/Time: the meter goes to distance, and only time is left. */
  lemma BareMeter(rule: Rule)
    ensures var parts := OMap(["distance", "time"], map["distance" := 1, "time" := -1]);
      var known := map["distance" := {"meter"}, "time" := {"second"}];
      var left := OMap(["distance", "time"], map["distance" := 0, "time" := -1]);
      && FirstUnfinished(AsWritten, left.keys, left.vals) == None
      && FirstUnfinished(Intended, left.keys, left.vals) == Some("time")
      && MatchTokens(rule, [Token("meter", 1)], [], parts, known)
         == match FirstUnfinished(rule, left.keys, left.vals)
            case Some(p) => Rejected(FalseWrapper(Leftover(p)))
            case None => Assigned([Assignment("distance", 1, "meter")])
  {
    var meter := Token("meter", 1);
    var parts := OMap(["distance", "time"], map["distance" := 1, "time" := -1]);
    var known := map["distance" := {"meter"}, "time" := {"second"}];
    var left := OMap(["distance", "time"], map["distance" := 0, "time" := -1]);
    assert parts.vals["distance" := 0] == left.vals;
    var a := [Assignment("distance", 1, "meter")];
    assert [] + a == a;
    assert FirstFit(rule, parts.keys, parts.vals, 1, "meter", known) == Some("distance");
    AssignSingle(rule, meter, 1, known, [], parts, "distance");
    assert "time" != "distance";
    assert FirstUnfinished(AsWritten, left.keys, left.vals) == None;
    assert FirstUnfinished(Intended, left.keys, left.vals) == Some("time");
  }

  lemma ParseMeterPerMinute()
    ensures Parse("m/m") == Some(([Token("m", 1)], [Token("m", 1)]))
  {
    var m := Token("m", 1);
    assert WellFormed(m);
    FormatParses([m], [m], true);
    assert Format([m], [m], true) == "m/m";
  }

  /**
   * Speed in meters per minute where "m" names both meter and minute: as
   * written the denominator's "m" lands on distance (whose remaining power 0 is
   * at least -1) and distance is then left over.
   */
  lemma DenominatorMisassigned()
    ensures var parts := OMap(["distance", "time"], map["distance" := 1, "time" := -1]);
      var known := map["distance" := {"m"}, "time" := {"m"}];
      Match(AsWritten, "m/m", parts, known) == Rejected(FalseWrapper(Leftover("distance")))
  {
    ParseMeterPerMinute();
    MisassignedTokens();
  }

  lemma MisassignedTokens()
    ensures var parts := OMap(["distance", "time"], map["distance" := 1, "time" := -1]);
      var known := map["distance" := {"m"}, "time" := {"m"}];
      MatchTokens(AsWritten, [Token("m", 1)], [Token("m", 1)], parts, known) == Rejected(FalseWrapper(Leftover("distance")))
  {
    var m := Token("m", 1);
    var parts := OMap(["distance", "time"], map["distance" := 1, "time" := -1]);
    var known := map["distance" := {"m"}, "time" := {"m"}];
    var a1 := [Assignment("distance", 1, "m")];
    assert [] + a1 == a1;
    var l1 := OMap(["distance", "time"], map["distance" := 0, "time" := -1]);
    assert parts.vals["distance" := 0] == l1.vals;
    assert FirstFit(AsWritten, parts.keys, parts.vals, 1, "m", known) == Some("distance");
    AssignSingle(AsWritten, m, 1, known, [], parts, "distance");
    var l2 := OMap(["distance", "time"], map["distance" := 1, "time" := -1]);
    assert l1.vals["distance" := 1] == l2.vals;
    assert FirstFit(AsWritten, l1.keys, l1.vals, -1, "m", known) == Some("distance");
    AssignSingle(AsWritten, m, -1, known, a1, l1, "distance");
    assert FirstUnfinished(AsWritten, l2.keys, l2.vals) == Some("distance");
  }

  /** The intended rule reads the same "m/m" as meters per minute. */
  lemma DenominatorAssignedIntended()
    ensures var parts := OMap(["distance", "time"], map["distance" := 1, "time" := -1]);
      var known := map["distance" := {"m"}, "time" := {"m"}];
      Match(Intended, "m/m", parts, known) == Assigned([Assignment("distance", 1, "m"), Assignment("time", -1, "m")])
  {
    ParseMeterPerMinute();
    IntendedTokens();
  }

  lemma IntendedTokens()
    ensures var parts := OMap(["distance", "time"], map["distance" := 1, "time" := -1]);
      var known := map["distance" := {"m"}, "time" := {"m"}];
      MatchTokens(Intended, [Token("m", 1)], [Token("m", 1)], parts, known)
        == Assigned([Assignment("distance", 1, "m"), Assignment("time", -1, "m")])
  {
    var m := Token("m", 1);
    var parts := OMap(["distance", "time"], map["distance" := 1, "time" := -1]);
    var known := map["distance" := {"m"}, "time" := {"m"}];
    var a1 := [Assignment("distance", 1, "m")];
    assert [] + a1 == a1;
    var l1 := OMap(["distance", "time"], map["distance" := 0, "time" := -1]);
    assert parts.vals["distance" := 0] == l1.vals;
    assert FirstFit(Intended, parts.keys, parts.vals, 1, "m", known) == Some("distance");
    AssignSingle(Intended, m, 1, known, [], parts, "distance");
    var l2 := OMap(["distance", "time"], map["distance" := 0, "time" := 0]);
    assert l1.vals["time" := 0] == l2.vals;
    assert "time" != "distance";
    assert FirstFit(Intended, l1.keys, l1.vals, -1, "m", known) == Some("time");
    AssignSingle(Intended, m, -1, known, a1, l1, "time");
    assert FirstUnfinished(Intended, l2.keys, l2.vals) == None;
  }
}
