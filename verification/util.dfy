/**
 * The helpers of measure/_util.py: the falsy error carrier, the leading-amount
 * grammar of unit strings, and the default-dropping merge of integer-valued maps
 * (which measure/measure.py repeats as `_combine_maps`).
 */
module Util {
  import opened Base

  // ---------------------------------------------------------------------------
  // FalseWrapper
  // ---------------------------------------------------------------------------

  /** A value that is false in a boolean context and hands back what it wraps when called. */
  datatype FalseWrapper<+T> = FalseWrapper(v: T) {

    /** `bool(wrapper)`: a FalseWrapper is never truthy. */
    function Truth(): (b: bool)
      ensures !b
    {
      false
    }

    /** `wrapper()`: the wrapped value, unchanged. */
    function Call(): (r: T)
      ensures this == FalseWrapper(r)
    {
      v
    }
  }

  // ---------------------------------------------------------------------------
  // Characters
  // ---------------------------------------------------------------------------

  /**
   * The characters of the regular-expression class `\s` on text: the
   * characters `str.isspace` accepts, Unicode spaces included.
   */
  predicate IsSpace(c: char) {
    ('\t' <= c <= '\r') || ('\U{1C}' <= c <= ' ') || ('\U{85}' <= c && IsWideSpace(c))
  }

  /** The whitespace characters beyond ASCII. */
  predicate IsWideSpace(c: char) {
    || c == '\U{85}' || c == '\U{A0}' || c == '\U{1680}'
    || ('\U{2000}' <= c <= '\U{200A}')
    || c == '\U{2028}' || c == '\U{2029}' || c == '\U{202F}' || c == '\U{205F}' || c == '\U{3000}'
  }

  predicate IsDigit(c: char) {
    '0' <= c <= '9'
  }

  predicate IsDigitOrComma(c: char) {
    IsDigit(c) || c == ','
  }

  predicate IsLetter(c: char) {
    ('a' <= c <= 'z') || ('A' <= c <= 'Z')
  }

  /** The end of the longest run of characters satisfying `p` that starts at `i`. */
  function RunEnd(s: string, i: nat, p: char -> bool): (j: nat)
    requires i <= |s|
    ensures i <= j <= |s|
    ensures forall k :: i <= k < j ==> p(s[k])
    ensures j < |s| ==> !p(s[j])
    decreases |s| - i
  {
    if i < |s| && p(s[i]) then RunEnd(s, i + 1, p) else i
  }

  function DigitValue(c: char): nat
    requires IsDigit(c)
  {
    (c as int - '0' as int) as nat
  }

  /** The number a string of decimal digits denotes. */
  function DigitsValue(d: string): nat
    requires forall k :: 0 <= k < |d| ==> IsDigit(d[k])
  {
    if d == [] then 0 else DigitsValue(d[..|d| - 1]) * 10 + DigitValue(d[|d| - 1])
  }

  function Pow10(n: nat): (r: real)
    ensures r >= 1.0
  {
    if n == 0 then 1.0 else 10.0 * Pow10(n - 1)
  }

  function RemoveCommas(s: string): (r: string)
    ensures forall k :: 0 <= k < |r| ==> r[k] != ','
    ensures |r| <= |s|
  {
    if s == [] then []
    else if s[0] == ',' then RemoveCommas(s[1..])
    else [s[0]] + RemoveCommas(s[1..])
  }

  lemma {:induction false} RemoveCommasKeepsDigits(s: string)
    requires forall k :: 0 <= k < |s| ==> IsDigitOrComma(s[k])
    ensures forall k :: 0 <= k < |RemoveCommas(s)| ==> IsDigit(RemoveCommas(s)[k])
  {
    if s != [] {
      RemoveCommasKeepsDigits(s[1..]);
    }
  }

  // ---------------------------------------------------------------------------
  // The leading-amount grammar:  ^[-+]?[0-9,]*(\.[0-9]*)?([eE][-+]?[0-9]+)?\s+.*
  // ---------------------------------------------------------------------------

  function SignEnd(s: string, i: nat): (j: nat)
    requires i <= |s|
    ensures i <= j <= |s|
  {
    if i < |s| && (s[i] == '+' || s[i] == '-') then i + 1 else i
  }

  /** End of the optional exponent `[eE][-+]?[0-9]+` starting at `i` (or `i` itself). */
  function ExponentEnd(s: string, i: nat): (j: nat)
    requires i <= |s|
    ensures i <= j <= |s|
  {
    if i < |s| && (s[i] == 'e' || s[i] == 'E') then
      var a := SignEnd(s, i + 1);
      var b := RunEnd(s, a, IsDigit);
      if a < b then b else i
    else i
  }

  /** End of the fraction `\.[0-9]*` starting at `i` (or `i` itself). */
  function FractionEnd(s: string, i: nat): (j: nat)
    requires i <= |s|
    ensures i <= j <= |s|
  {
    if i < |s| && s[i] == '.' then RunEnd(s, i + 1, IsDigit) else i
  }

  /** Length of the longest prefix of `s` matched by the `float` group. */
  function FloatEnd(s: string): (f: nat)
    ensures f <= |s|
  {
    var a := SignEnd(s, 0);
    var b := RunEnd(s, a, IsDigitOrComma);
    ExponentEnd(s, FractionEnd(s, b))
  }

  /**
   * `float(text.replace(',', ''))` for a text of the shape the `float` group
   * matches: None when Python's float() rejects it (no mantissa digit at all).
   */
  function FloatValue(text: string): Option<real>
  {
    var a := SignEnd(text, 0);
    var b := RunEnd(text, a, IsDigitOrComma);
    var c := FractionEnd(text, b);
    var whole := RemoveCommas(text[a..b]);
    var frac := if b < c then text[b + 1..c] else "";
    if !(forall k :: 0 <= k < |whole| ==> IsDigit(whole[k])) then None
    else if |whole| + |frac| == 0 then None
    else if !(forall k :: 0 <= k < |frac| ==> IsDigit(frac[k])) then None
    else
      var mantissa := DigitsValue(whole) as real + DigitsValue(frac) as real / Pow10(|frac|);
      var signed := if a == 1 && text[0] == '-' then -mantissa else mantissa;
      if c == |text| then Some(signed)
      else
        var e := SignEnd(text, c + 1);
        var digits := text[e..];
        if |digits| == 0 || !(forall k :: 0 <= k < |digits| ==> IsDigit(digits[k])) then None
        else
          var scale := Pow10(DigitsValue(digits));
          Some(if e == c + 2 && text[c + 1] == '-' then signed / scale else signed * scale)
  }

  predicate NoNewline(s: string) {
    forall k :: 0 <= k < |s| ==> s[k] != '\n'
  }

  /**
   * split_amount_args: a leading number, at least one whitespace character and the
   * rest of the string give (number, rest); anything else gives (default, arg).
   * A numeral that float() rejects (",", "-", ".") raises ValueError.
   */
  function SplitAmountArgs(arg: string, default: Option<real>): (r: Result<(Option<real>, string)>)
    ensures r.Ok? ==> r.value == (default, arg) || (r.value.0.Some? && |r.value.1| < |arg|)
    ensures r.Ok? && r.value.0.Some? && r.value.1 != arg ==> arg == arg[..|arg| - |r.value.1|] + r.value.1
  {
    var f := FloatEnd(arg);
    var w := RunEnd(arg, f, IsSpace);
    if 0 < f < w && NoNewline(arg[w..]) then
      assert arg == arg[..w] + arg[w..];
      match FloatValue(arg[..f])
      case Some(x) => Ok((Some(x), arg[w..]))
      case None => Err(NumberError(arg[..f]))
    else
      Ok((default, arg))
  }

  /** A function that splits a leading amount off a unit name. */
  type Splitter = string -> Result<(Option<real>, string)>

  /**
   * `split_amount_args(item, default_amount=None)`, the first step of every
   * `__getitem__`: Some(amount) and the rest, or None and the item itself.
   */
  function SplitLeading(item: string): (r: Result<(Option<real>, string)>)
    ensures !HasAmount(item) ==> r == Ok((None, item))
    ensures HasAmount(item) ==> r.Err? || (r.value.0.Some? && |r.value.1| < |item|)
  {
    SplitAmountArgs(item, None)
  }

  /** Whether `arg` carries a leading amount (with `default` None the amount is then Some). */
  predicate HasAmount(arg: string)
  {
    var f := FloatEnd(arg);
    var w := RunEnd(arg, f, IsSpace);
    0 < f < w && NoNewline(arg[w..])
  }

  lemma SplitWithoutAmount(arg: string, default: Option<real>)
    requires !HasAmount(arg)
    ensures SplitAmountArgs(arg, default) == Ok((default, arg))
  {
  }

  /** A string holding no whitespace never carries an amount: "3km" gives the default. */
  lemma NoSpaceNoAmount(arg: string, default: Option<real>)
    requires forall k :: 0 <= k < |arg| ==> !IsSpace(arg[k])
    ensures !HasAmount(arg)
    ensures SplitAmountArgs(arg, default) == Ok((default, arg))
  {
  }

  /** A name spelled in lower-case letters holds no whitespace, so it carries no amount. */
  lemma LowercaseNoAmount(arg: string, default: Option<real>)
    requires forall k :: 0 <= k < |arg| ==> 'a' <= arg[k] <= 'z'
    ensures SplitAmountArgs(arg, default) == Ok((default, arg))
  {
    forall k | 0 <= k < |arg|
      ensures !IsSpace(arg[k])
    {
      assert ' ' < arg[k] < '\U{85}';
    }
    NoSpaceNoAmount(arg, default);
  }

  /** Leading whitespace leaves the numeric group empty, so the default is returned. */
  lemma LeadingSpaceNoAmount(arg: string, default: Option<real>)
    requires |arg| > 0 && IsSpace(arg[0])
    ensures !HasAmount(arg)
    ensures SplitAmountArgs(arg, default) == Ok((default, arg))
  {
    assert FloatEnd(arg) == 0;
  }

  lemma {:induction false} RunEndAt(s: string, i: nat, p: char -> bool, j: nat)
    requires i <= j <= |s|
    requires forall k :: i <= k < j ==> p(s[k])
    requires j == |s| || !p(s[j])
    ensures RunEnd(s, i, p) == j
    decreases j - i
  {
    if i < j {
      RunEndAt(s, i + 1, p, j);
    }
  }

  /** The `float` group of "<digits and commas><whitespace>..." is exactly the digits and commas. */
  lemma FloatEndOfWhole(n: string, tail: string)
    requires forall k :: 0 <= k < |n| ==> IsDigitOrComma(n[k])
    requires |n| > 0
    requires |tail| > 0 && IsSpace(tail[0])
    ensures FloatEnd(n + tail) == |n|
  {
    var arg := n + tail;
    assert IsDigitOrComma(arg[0]);
    assert SignEnd(arg, 0) == 0;
    RunEndAt(arg, 0, IsDigitOrComma, |n|);
  }

  /** float() of digits and commas is the number the digits spell. */
  lemma FloatValueOfWhole(n: string)
    requires forall k :: 0 <= k < |n| ==> IsDigitOrComma(n[k])
    requires exists k :: 0 <= k < |n| && IsDigit(n[k])
    ensures forall k :: 0 <= k < |RemoveCommas(n)| ==> IsDigit(RemoveCommas(n)[k])
    ensures FloatValue(n) == Some(DigitsValue(RemoveCommas(n)) as real)
  {
    RemoveCommasKeepsDigits(n);
    var k :| 0 <= k < |n| && IsDigit(n[k]);
    RemoveCommasHasDigit(n, k);
    assert IsDigitOrComma(n[0]);
    assert SignEnd(n, 0) == 0;
    RunEndAt(n, 0, IsDigitOrComma, |n|);
    assert n[0..|n|] == n;
  }

  /**
   * The grammar splits "<digits and commas> <whitespace> <rest>" into the number the
   * digits spell (commas removed) and the rest.
   */
  lemma SplitWholeNumber(n: string, ws: string, rest: string, default: Option<real>)
    requires forall k :: 0 <= k < |n| ==> IsDigitOrComma(n[k])
    requires exists k :: 0 <= k < |n| && IsDigit(n[k])
    requires |ws| > 0 && forall k :: 0 <= k < |ws| ==> IsSpace(ws[k])
    requires rest == [] || !IsSpace(rest[0])
    requires NoNewline(rest)
    ensures forall k :: 0 <= k < |RemoveCommas(n)| ==> IsDigit(RemoveCommas(n)[k])
    ensures SplitAmountArgs(n + ws + rest, default)
         == Ok((Some(DigitsValue(RemoveCommas(n)) as real), rest))
  {
    var arg := n + ws + rest;
    assert arg == n + (ws + rest);
    FloatEndOfWhole(n, ws + rest);
    var f := |n|;
    RunEndAt(arg, f, IsSpace, f + |ws|);
    assert arg[f + |ws|..] == rest;
    assert arg[..f] == n;
    FloatValueOfWhole(n);
  }

  lemma {:induction false} RemoveCommasHasDigit(s: string, k: nat)
    requires k < |s| && IsDigit(s[k])
    ensures |RemoveCommas(s)| > 0
  {
    if s[0] == ',' {
      RemoveCommasHasDigit(s[1..], k - 1);
    }
  }

  // ---------------------------------------------------------------------------
  // Ordered integer-valued maps (Python's Counter keeps insertion order)
  // ---------------------------------------------------------------------------

  /** A map from keys to integers together with the order in which its keys were inserted. */
  datatype OMap<K(==)> = OMap(keys: seq<K>, vals: map<K, int>) {

    ghost predicate Valid() {
      && (forall i, j :: 0 <= i < j < |keys| ==> keys[i] != keys[j])
      && (forall k | k in vals :: k in keys)
      && (forall i | 0 <= i < |keys| :: keys[i] in vals)
    }

    /** `m.get(k, default)` */
    function Get(k: K, default: int): int {
      if k in vals then vals[k] else default
    }

    /** `ret[k] = v` for a key not yet present: the key goes last. */
    function Append(k: K, v: int): (r: OMap<K>)
      requires k !in vals
      ensures Valid() ==> r.Valid()
    {
      OMap(keys + [k], vals[k := v])
    }
  }

  function EmptyMap<K(==)>(): (r: OMap<K>)
    ensures r.Valid() && r.vals == map[]
  {
    OMap([], map[])
  }

  /** `it.chain(*(m.keys() for m in maps))` */
  function Chain<K(==)>(maps: seq<OMap<K>>): seq<K>
  {
    if maps == [] then [] else maps[0].keys + Chain(maps[1..])
  }

  lemma {:induction false} InChain<K>(maps: seq<OMap<K>>, k: K)
    requires forall i :: 0 <= i < |maps| ==> maps[i].Valid()
    ensures k in Chain(maps) <==> exists i :: 0 <= i < |maps| && k in maps[i].vals
  {
    if maps != [] {
      InChain(maps[1..], k);
      if k in Chain(maps[1..]) {
        var i :| 0 <= i < |maps[1..]| && k in maps[1..][i].vals;
        assert k in maps[i + 1].vals;
      }
      if exists i :: 0 <= i < |maps| && k in maps[i].vals {
        var i :| 0 <= i < |maps| && k in maps[i].vals;
        if i > 0 {
          assert k in maps[1..][i - 1].vals;
        }
      }
    }
  }

  /** `(m.get(k, default) for m in maps)` */
  function Args<K(==)>(maps: seq<OMap<K>>, k: K, default: int): (a: seq<int>)
    ensures |a| == |maps|
    ensures forall i :: 0 <= i < |maps| ==> a[i] == maps[i].Get(k, default)
  {
    seq(|maps|, i requires 0 <= i < |maps| => maps[i].Get(k, default))
  }

  /** One iteration of the loop of combine_maps. */
  function Step<K(==)>(func: seq<int> -> int, maps: seq<OMap<K>>, default: int, ret: OMap<K>, k: K): OMap<K>
  {
    if k in ret.vals then ret
    else
      var v := func(Args(maps, k, default));
      if v != default then ret.Append(k, v) else ret
  }

  function Fold<K(==)>(func: seq<int> -> int, maps: seq<OMap<K>>, default: int, ks: seq<K>, ret: OMap<K>): OMap<K>
  {
    if ks == [] then ret else Fold(func, maps, default, ks[1..], Step(func, maps, default, ret, ks[0]))
  }

  /** What combine_maps returns: the specification the loop below is proved against. */
  function Combined<K(==)>(func: seq<int> -> int, maps: seq<OMap<K>>, default: int): OMap<K>
  {
    Fold(func, maps, default, Chain(maps), EmptyMap())
  }

  /** combine_maps(func, *maps, default): a Counter filled key by key over the chained keys. */
  method CombineMaps<K(==)>(func: seq<int> -> int, maps: seq<OMap<K>>, default: int) returns (ret: OMap<K>)
    ensures ret == Combined(func, maps, default)
  {
    var keys := Chain(maps);
    ret := OMap([], map[]);
    var i := 0;
    while i < |keys|
      invariant 0 <= i <= |keys|
      invariant Fold(func, maps, default, keys[i..], ret) == Combined(func, maps, default)
    {
      var k := keys[i];
      assert keys[i..][1..] == keys[i + 1..];
      if k !in ret.vals {
        var v := func(Args(maps, k, default));
        if v != default {
          ret := ret.Append(k, v);
        }
      }
      i := i + 1;
    }
  }

  /** Every entry of `ret` is func of its per-map values, differs from `default`, and comes from `universe`. */
  ghost predicate Sound<K>(func: seq<int> -> int, maps: seq<OMap<K>>, default: int, ret: OMap<K>, universe: seq<K>)
  {
    && ret.Valid()
    && forall k :: k in ret.vals ==>
         ret.vals[k] == func(Args(maps, k, default)) && ret.vals[k] != default && k in universe
  }

  lemma {:induction false} FoldSound<K>(func: seq<int> -> int, maps: seq<OMap<K>>, default: int,
                                            ks: seq<K>, ret: OMap<K>, universe: seq<K>)
    requires Sound(func, maps, default, ret, universe)
    requires forall k :: k in ks ==> k in universe
    ensures Sound(func, maps, default, Fold(func, maps, default, ks, ret), universe)
    ensures ret.vals.Keys <= Fold(func, maps, default, ks, ret).vals.Keys
    ensures forall k :: k in ks && func(Args(maps, k, default)) != default ==>
              k in Fold(func, maps, default, ks, ret).vals
  {
    if ks != [] {
      var next := Step(func, maps, default, ret, ks[0]);
      FoldSound(func, maps, default, ks[1..], next, universe);
      forall k | k in ks && func(Args(maps, k, default)) != default
        ensures k in Fold(func, maps, default, ks, ret).vals
      {
        if k != ks[0] {
          assert k in ks[1..];
        }
      }
    }
  }

  /**
   * combine_maps never stores `default`; its keys are among the input keys; each stored
   * value is func of the per-map values (default for a missing key); and every input key
   * whose combined value differs from `default` is stored.
   */
  lemma CombinedSpec<K>(func: seq<int> -> int, maps: seq<OMap<K>>, default: int)
    requires forall i :: 0 <= i < |maps| ==> maps[i].Valid()
    ensures Combined(func, maps, default).Valid()
    ensures forall k :: k in Combined(func, maps, default).vals ==>
              && Combined(func, maps, default).vals[k] != default
              && Combined(func, maps, default).vals[k] == func(Args(maps, k, default))
              && exists i :: 0 <= i < |maps| && k in maps[i].vals
    ensures forall k :: (exists i :: 0 <= i < |maps| && k in maps[i].vals) ==>
              (k in Combined(func, maps, default).vals <==> func(Args(maps, k, default)) != default)
  {
    var chain := Chain(maps);
    FoldSound(func, maps, default, chain, EmptyMap(), chain);
    var r := Combined(func, maps, default);
    forall k | k in r.vals
      ensures exists i :: 0 <= i < |maps| && k in maps[i].vals
    {
      InChain(maps, k);
    }
    forall k | exists i :: 0 <= i < |maps| && k in maps[i].vals
      ensures k in chain
    {
      InChain(maps, k);
    }
  }

  /** The sum of the arguments: `lambda x, y: x + y` for two maps. */
  function Sum(args: seq<int>): int {
    if args == [] then 0 else args[0] + Sum(args[1..])
  }

  /** `m` with every exponent negated. */
  function Negated<K(==)>(m: OMap<K>): (r: OMap<K>)
    ensures m.Valid() ==> r.Valid()
  {
    OMap(m.keys, map k | k in m.vals :: -m.vals[k])
  }

  /** A well-formed map with no values has no keys either. */
  lemma NoValuesNoKeys<K>(m: OMap<K>)
    requires m.Valid()
    ensures m.vals == map[] ==> m.keys == []
  {
    if m.keys != [] {
      assert m.keys[0] in m.vals;
    }
  }

  lemma NegationCancels<K>(m: OMap<K>, k: K)
    ensures Sum(Args([m, Negated(m)], k, 0)) == 0
  {
    var a := Args([m, Negated(m)], k, 0);
    assert a == [m.Get(k, 0), -m.Get(k, 0)];
    assert a[1..] == [-m.Get(k, 0)];
  }

  /** Merging a map with its negation under + leaves nothing: every sum is the default 0. */
  lemma MergeWithNegationIsEmpty<K>(m: OMap<K>)
    requires m.Valid()
    ensures Combined(Sum, [m, Negated(m)], 0) == EmptyMap()
  {
    var maps := [m, Negated(m)];
    forall k ensures Sum(Args(maps, k, 0)) == 0 {
      NegationCancels(m, k);
    }
    CombinedSpec(Sum, maps, 0);
    var r := Combined(Sum, maps, 0);
    assert r.vals == map[];
    NoValuesNoKeys(r);
  }

  // ---------------------------------------------------------------------------
  // Insertion-ordered tables (Python dicts keyed by unit names)
  // ---------------------------------------------------------------------------

  /** `order` lists the keys of `m` once each, in the order they were first assigned. */
  ghost predicate Indexed<V>(m: map<string, V>, order: seq<string>) {
    && (forall i, j | 0 <= i < j < |order| :: order[i] != order[j])
    && (forall k | k in m :: k in order)
    && (forall i | 0 <= i < |order| :: order[i] in m)
  }

  /** A table with no keys in its order has no keys at all. */
  lemma EmptyOrder<V>(m: map<string, V>, order: seq<string>)
    requires Indexed(m, order)
    ensures order == [] <==> m == map[]
  {
    if order != [] {
      assert order[0] in m;
    }
  }

  /** `d[k] = v`: a new key goes last, an existing key keeps its place. */
  function Put<V>(m: map<string, V>, order: seq<string>, k: string, v: V): (map<string, V>, seq<string>) {
    (m[k := v], if k in m then order else order + [k])
  }

  lemma PutIndexed<V>(m: map<string, V>, order: seq<string>, k: string, v: V)
    requires Indexed(m, order)
    ensures Indexed(Put(m, order, k, v).0, Put(m, order, k, v).1)
  {
  }

  /** `for k, v in pairs: d[k] = v`, one assignment after another. */
  function PutAll<V>(m: map<string, V>, order: seq<string>, pairs: seq<(string, V)>): (map<string, V>, seq<string>)
    decreases |pairs|
  {
    if pairs == [] then (m, order)
    else
      var t := Put(m, order, pairs[0].0, pairs[0].1);
      PutAll(t.0, t.1, pairs[1..])
  }

  /** The dict a sequence of pairs builds from nothing: the last value given for a key wins. */
  function MapOf<V>(pairs: seq<(string, V)>): (r: map<string, V>)
    ensures pairs != [] ==> pairs[|pairs| - 1].0 in r && r[pairs[|pairs| - 1].0] == pairs[|pairs| - 1].1
  {
    if pairs == [] then map[]
    else
      var last := pairs[|pairs| - 1];
      MapOf(pairs[..|pairs| - 1])[last.0 := last.1]
  }

  /** The keys of `MapOf(pairs)` are exactly the keys the pairs name. */
  lemma {:induction false} MapOfKeys<V>(pairs: seq<(string, V)>)
    ensures forall k | k in MapOf(pairs) :: exists i | 0 <= i < |pairs| :: pairs[i].0 == k
    ensures forall i | 0 <= i < |pairs| :: pairs[i].0 in MapOf(pairs)
    decreases |pairs|
  {
    if pairs != [] {
      var init := pairs[..|pairs| - 1];
      MapOfKeys(init);
      assert forall i | 0 <= i < |init| :: init[i] == pairs[i];
    }
  }

  /** Assigning pairs one by one overlays the dict they build on the old one. */
  lemma {:induction false} PutAllValues<V>(m: map<string, V>, order: seq<string>, pairs: seq<(string, V)>)
    ensures PutAll(m, order, pairs).0 == m + MapOf(pairs)
    decreases |pairs|
  {
    if pairs == [] {
      assert m + map[] == m;
    } else {
      var t := Put(m, order, pairs[0].0, pairs[0].1);
      PutAllValues(t.0, t.1, pairs[1..]);
      MapOfCons(pairs);
      var single := map[pairs[0].0 := pairs[0].1];
      assert t.0 == m + single;
      assert m + (single + MapOf(pairs[1..])) == (m + single) + MapOf(pairs[1..]);
    }
  }

  /** Assigning pairs one by one keeps the old order as a prefix and keeps the order valid. */
  lemma {:induction false} PutAllIndexed<V>(m: map<string, V>, order: seq<string>, pairs: seq<(string, V)>)
    requires Indexed(m, order)
    ensures Indexed(PutAll(m, order, pairs).0, PutAll(m, order, pairs).1)
    ensures order <= PutAll(m, order, pairs).1
    decreases |pairs|
  {
    if pairs != [] {
      var t := Put(m, order, pairs[0].0, pairs[0].1);
      PutIndexed(m, order, pairs[0].0, pairs[0].1);
      PutAllIndexed(t.0, t.1, pairs[1..]);
      assert order <= t.1;
    }
  }

  /** `MapOf` read from the front: the first pair is overridden by any later one. */
  lemma {:induction false} MapOfCons<V>(pairs: seq<(string, V)>)
    requires pairs != []
    ensures MapOf(pairs) == map[pairs[0].0 := pairs[0].1] + MapOf(pairs[1..])
    decreases |pairs|
  {
    if |pairs| > 1 {
      var init := pairs[..|pairs| - 1];
      MapOfCons(init);
      assert init[1..] == pairs[1..][..|pairs[1..]| - 1];
    }
  }

  /** Assigning two runs of pairs is assigning their concatenation. */
  lemma {:induction false} PutAllAppend<V>(m: map<string, V>, order: seq<string>, a: seq<(string, V)>, b: seq<(string, V)>)
    ensures PutAll(m, order, a + b) == PutAll(PutAll(m, order, a).0, PutAll(m, order, a).1, b)
    decreases |a|
  {
    if a == [] {
      assert a + b == b;
    } else {
      var t := Put(m, order, a[0].0, a[0].1);
      assert (a + b)[1..] == a[1..] + b;
      PutAllAppend(t.0, t.1, a[1..], b);
    }
  }
}
