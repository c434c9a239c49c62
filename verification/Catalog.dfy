/** Two catalogs of payment methods read as one, and the region list a screen shows of it. */
module Catalog {
  import opened Digits
  import opened FundingAmount
  import opened Wrappers

  // ----- decimal texts

  /** `(\d+)(?:\.(\d*))?`, trimmed. */
  function Decimal(s: string): Option<Parts> {
    var parts := Split(Trim(s));
    if parts.whole != "" && AllDigits(parts.whole) && AllDigits(FractionOf(parts)) then Some(parts) else None
  }

  function Scaled(p: Parts, places: nat): nat
    requires AllDigits(p.whole) && AllDigits(FractionOf(p))
  {
    assert AllDigits(p.whole + PadEnd(FractionOf(p), places));
    Value(p.whole + PadEnd(FractionOf(p), places))
  }

  function Max(a: nat, b: nat): nat {
    if a > b then a else b
  }

  function CompareDecimal(a: string, b: string): Option<int> {
    var x, y := Decimal(a), Decimal(b);
    if x.None? || y.None? then None
    else
      var places := Max(|FractionOf(x.value)|, |FractionOf(y.value)|);
      var diff := Scaled(x.value, places) - Scaled(y.value, places);
      Some(if diff == 0 then 0 else if diff < 0 then -1 else 1)
  }

  /** The text is the fraction `Digits` / 10^`Places`. */
  function Numerator(p: Parts): nat
    requires AllDigits(p.whole) && AllDigits(FractionOf(p))
  {
    Value(p.whole + FractionOf(p))
  }

  /** The exact order of two decimals, by cross-multiplying. */
  predicate AtMost(a: Parts, b: Parts)
    requires AllDigits(a.whole) && AllDigits(FractionOf(a)) && AllDigits(b.whole) && AllDigits(FractionOf(b))
  {
    Numerator(a) * Pow10(|FractionOf(b)|) <= Numerator(b) * Pow10(|FractionOf(a)|)
  }

  lemma {:induction false} ScaledIsShifted(p: Parts, places: nat)
    requires AllDigits(p.whole) && AllDigits(FractionOf(p)) && places >= |FractionOf(p)|
    ensures Scaled(p, places) == Numerator(p) * Pow10(places - |FractionOf(p)|)
  {
    var f := FractionOf(p);
    assert p.whole + PadEnd(f, places) == PadEnd(p.whole + f, |p.whole| + places);
    ValueOfPadEnd(p.whole + f, |p.whole| + places);
  }

  lemma ShiftKeepsOrder(a: nat, b: nat, shift: nat, common: nat)
    ensures a * Pow10(common) <= b * Pow10(shift + common) <==> a <= b * Pow10(shift)
    ensures b * Pow10(shift + common) <= a * Pow10(common) <==> b * Pow10(shift) <= a
  {
    PowOfSum(shift, common);
    FactorMovesOut(b, Pow10(shift), Pow10(common));
    FactorCancels(a, b * Pow10(shift), Pow10(common));
    FactorCancels(b * Pow10(shift), a, Pow10(common));
  }

  lemma FactorMovesOut(b: nat, p: nat, c: nat)
    ensures b * (p * c) == (b * p) * c
  {
  }

  lemma FactorCancels(a: int, b: int, c: nat)
    requires c > 0
    ensures a * c <= b * c <==> a <= b
  {
    assert a * c == c * a && b * c == c * b;
    TimesIsMonotone(c, a, b);
    TimesIsMonotone(c, b + 1, a);
  }

  lemma ScaledOrder(x: Parts, y: Parts)
    requires AllDigits(x.whole) && AllDigits(FractionOf(x)) && AllDigits(y.whole) && AllDigits(FractionOf(y))
    requires |FractionOf(x)| >= |FractionOf(y)|
    ensures Scaled(x, |FractionOf(x)|) <= Scaled(y, |FractionOf(x)|) <==> AtMost(x, y)
    ensures Scaled(y, |FractionOf(x)|) <= Scaled(x, |FractionOf(x)|) <==> AtMost(y, x)
  {
    ScaledIsShifted(x, |FractionOf(x)|);
    ScaledIsShifted(y, |FractionOf(x)|);
    ShiftKeepsOrder(Numerator(x), Numerator(y), |FractionOf(x)| - |FractionOf(y)|, |FractionOf(y)|);
  }

  /** The comparison is the exact order of the two numbers, and has no answer exactly when either text
      is not a plain decimal. */
  lemma CompareIsExact(a: string, b: string)
    ensures var x, y, order := Decimal(a), Decimal(b), CompareDecimal(a, b);
            && (order.None? <==> x.None? || y.None?)
            && (order.Some? ==>
                  && (order.value <= 0 <==> AtMost(x.value, y.value))
                  && (order.value >= 0 <==> AtMost(y.value, x.value)))
  {
    var x, y := Decimal(a), Decimal(b);
    if x.Some? && y.Some? {
      if |FractionOf(x.value)| >= |FractionOf(y.value)| {
        ScaledOrder(x.value, y.value);
      } else {
        ScaledOrder(y.value, x.value);
      }
    }
  }

  // ----- one corridor from two

  datatype Method = Method(category: string, min: string, max: string, currency: string,
                           providers: seq<string>, temporarilyUnavailable: bool, paymentMethodType: string)

  datatype Corridor = Corridor(country: string, fiat: string, name: Option<string>, methods: seq<Method>)

  datatype Sign = Lower | Higher

  function WiderBound(a: string, b: string, sign: Sign): string {
    var order := CompareDecimal(a, b);
    if order.None? then ""
    else if (if sign == Lower then -order.value else order.value) >= 0 then a
    else b
  }

  /** The place of the first method of a category. */
  function First(methods: seq<Method>, category: string): (r: Option<nat>)
    ensures r.Some? ==> r.value < |methods| && methods[r.value].category == category
    ensures r.Some? ==> forall i | 0 <= i < r.value :: methods[i].category != category
    ensures r.None? ==> forall i | 0 <= i < |methods| :: methods[i].category != category
  {
    if methods == [] then None
    else if methods[0].category == category then Some(0)
    else
      var r := First(methods[1..], category);
      if r.None? then None else Some(r.value + 1)
  }

  /** `[...new Set(xs)]` */
  function Distinct(xs: seq<string>): (r: seq<string>)
    ensures forall x :: x in r <==> x in xs
    ensures forall i, j | 0 <= i < j < |r| :: r[i] != r[j]
  {
    if xs == [] then []
    else
      var front, last := Distinct(xs[..|xs| - 1]), xs[|xs| - 1];
      if last in front then front else front + [last]
  }

  /** What the first method of a category becomes beside its twin. */
  function Widened(mine: Method, twin: Method): Method {
    if mine.temporarilyUnavailable != twin.temporarilyUnavailable then
      if mine.temporarilyUnavailable then twin else mine
    else if twin.currency != mine.currency then mine
    else mine.(min := WiderBound(mine.min, twin.min, Lower),
                 max := WiderBound(mine.max, twin.max, Higher),
                 providers := Distinct(mine.providers + twin.providers))
  }

  function WidenedAt(preferred: seq<Method>, other: seq<Method>, i: nat): Method
    requires i < |preferred|
  {
    var twin := First(other, preferred[i].category);
    if First(preferred, preferred[i].category) != Some(i) || twin.None? then preferred[i]
    else Widened(preferred[i], other[twin.value])
  }

  function Unmatched(preferred: seq<Method>, other: seq<Method>): (r: seq<Method>)
    ensures forall m | m in r :: m in other && First(preferred, m.category).None?
    ensures forall m | m in other && First(preferred, m.category).None? :: m in r
  {
    if other == [] then []
    else (if First(preferred, other[0].category).None? then [other[0]] else []) + Unmatched(preferred, other[1..])
  }

  function MergedMethods(preferred: seq<Method>, other: seq<Method>): seq<Method> {
    seq(|preferred|, i requires 0 <= i < |preferred| => WidenedAt(preferred, other, i)) + Unmatched(preferred, other)
  }

  function MergeCorridor(preferred: Option<Corridor>, other: Option<Corridor>): Option<Corridor> {
    if preferred.None? || other.None? then (if preferred.Some? then preferred else other)
    else Some(preferred.value.(methods := MergedMethods(preferred.value.methods, other.value.methods)))
  }

  /** The method a screen takes of a category. */
  function MethodFor(methods: seq<Method>, category: string): Option<Method> {
    var i := First(methods, category);
    if i.None? then None else Some(methods[i.value])
  }

  lemma FirstOfMore(m: Method, rest: seq<Method>, category: string)
    ensures MethodFor([m] + rest, category) == if m.category == category then Some(m) else MethodFor(rest, category)
  {
    assert ([m] + rest)[1..] == rest;
  }

  lemma {:induction false} FirstUnmatched(preferred: seq<Method>, other: seq<Method>, category: string)
    requires First(preferred, category).None?
    ensures MethodFor(Unmatched(preferred, other), category) == MethodFor(other, category)
  {
    if other != [] {
      FirstUnmatched(preferred, other[1..], category);
      var rest := Unmatched(preferred, other[1..]);
      if First(preferred, other[0].category).None? {
        FirstOfMore(other[0], rest, category);
        FirstOfMore(other[0], other[1..], category);
        assert other == [other[0]] + other[1..];
      } else {
        assert [] + rest == rest;
        FirstOfMore(other[0], other[1..], category);
        assert other == [other[0]] + other[1..];
      }
    }
  }

  lemma {:induction false} FirstOfJoin(a: seq<Method>, b: seq<Method>, category: string)
    ensures MethodFor(a + b, category) ==
              if First(a, category).Some? then MethodFor(a, category) else MethodFor(b, category)
  {
    if a == [] {
      assert a + b == b;
    } else {
      FirstOfJoin(a[1..], b, category);
      assert (a + b)[1..] == a[1..] + b;
    }
  }

  lemma {:induction false} FirstIsThatIndex(methods: seq<Method>, category: string, i: nat)
    requires i < |methods| && methods[i].category == category
    requires forall j | 0 <= j < i :: methods[j].category != category
    ensures First(methods, category) == Some(i)
  {
    if i > 0 {
      FirstIsThatIndex(methods[1..], category, i - 1);
    }
  }

  /** A category is routed when either side routes it; where both do, its first method is the two made
      one, and where one does, that side's first. */
  lemma MergeTakesBoth(preferred: seq<Method>, other: seq<Method>, category: string)
    ensures var merged, p, o := MethodFor(MergedMethods(preferred, other), category),
                                MethodFor(preferred, category), MethodFor(other, category);
            merged == if p.Some? && o.Some? then Some(Widened(p.value, o.value)) else if p.Some? then p else o
  {
    var front := seq(|preferred|, i requires 0 <= i < |preferred| => WidenedAt(preferred, other, i));
    FirstOfJoin(front, Unmatched(preferred, other), category);
    forall i | 0 <= i < |preferred| ensures front[i].category == preferred[i].category {
    }
    var place := First(preferred, category);
    if place.None? {
      FirstUnmatched(preferred, other, category);
      assert First(front, category).None?;
    } else {
      FirstIsThatIndex(front, category, place.value);
    }
  }

  /** Everything else stands: a preferred method that is not the first of its category is as it was, the
      other side's methods of categories the preferred side lacks follow in their order, and the merged
      corridor is the preferred one but for its methods. */
  lemma RestStands(preferred: Corridor, other: Corridor, i: nat)
    requires i < |preferred.methods|
    ensures var merged := MergeCorridor(Some(preferred), Some(other)).value;
            && merged.country == preferred.country && merged.fiat == preferred.fiat && merged.name == preferred.name
            && |merged.methods| >= |preferred.methods|
            && merged.methods[i].category == preferred.methods[i].category
            && ((exists j :: 0 <= j < i && preferred.methods[j].category == preferred.methods[i].category) ==>
                  merged.methods[i] == preferred.methods[i])
            && ((forall m | m in other.methods :: m.category != preferred.methods[i].category) ==>
                  merged.methods[i] == preferred.methods[i])
            && merged.methods[|preferred.methods|..] == Unmatched(preferred.methods, other.methods)
  {
  }

  predicate Comparable(a: Method, b: Method) {
    && a.temporarilyUnavailable == b.temporarilyUnavailable && a.currency == b.currency
    && Decimal(a.min).Some? && Decimal(b.min).Some? && Decimal(a.max).Some? && Decimal(b.max).Some?
  }

  /** Of two methods that can be compared the smaller minimum and the larger maximum stand, exactly,
      with the providers of both. A method is failing only where both are, and bounds in two currencies
      or of two availabilities are never mixed. */
  lemma WidenedIsWider(mine: Method, twin: Method)
    ensures var w := Widened(mine, twin);
            && (w.temporarilyUnavailable <==> mine.temporarilyUnavailable && twin.temporarilyUnavailable)
            && (Comparable(mine, twin) ==>
                  && w.min in [mine.min, twin.min] && w.max in [mine.max, twin.max]
                  && AtMost(Decimal(w.min).value, Decimal(mine.min).value)
                  && AtMost(Decimal(w.min).value, Decimal(twin.min).value)
                  && AtMost(Decimal(mine.max).value, Decimal(w.max).value)
                  && AtMost(Decimal(twin.max).value, Decimal(w.max).value)
                  && (forall p :: p in w.providers <==> p in mine.providers || p in twin.providers))
            && (w == mine || w == twin || (mine.currency == twin.currency == w.currency))
  {
    CompareIsExact(mine.min, twin.min);
    CompareIsExact(mine.max, twin.max);
  }

  /** Of two that cannot be compared: the available one stands alone, the preferred one's bounds stand where
      the currencies differ, and a bound that either side does not give is left blank. */
  lemma WidenedElse(mine: Method, twin: Method)
    ensures var w := Widened(mine, twin);
            && (mine.temporarilyUnavailable != twin.temporarilyUnavailable ==>
                  w == if mine.temporarilyUnavailable then twin else mine)
            && (mine.temporarilyUnavailable == twin.temporarilyUnavailable ==>
                  && (mine.currency != twin.currency ==> w == mine)
                  && (mine.currency == twin.currency ==>
                        && (Decimal(mine.min).None? || Decimal(twin.min).None? ==> w.min == "")
                        && (Decimal(mine.max).None? || Decimal(twin.max).None? ==> w.max == "")
                        && w.paymentMethodType == mine.paymentMethodType && w.category == mine.category))
  {
    CompareIsExact(mine.min, twin.min);
    CompareIsExact(mine.max, twin.max);
  }

  lemma {:induction false} DistinctKeepsFront(a: seq<string>, b: seq<string>)
    requires forall i, j | 0 <= i < j < |a| :: a[i] != a[j]
    ensures a <= Distinct(a + b)
  {
    if b == [] {
      assert a + b == a;
      DistinctIsSame(a);
    } else {
      DistinctKeepsFront(a, b[..|b| - 1]);
      assert (a + b)[..|a + b| - 1] == a + b[..|b| - 1];
    }
  }

  lemma {:induction false} DistinctIsSame(a: seq<string>)
    requires forall i, j | 0 <= i < j < |a| :: a[i] != a[j]
    ensures Distinct(a) == a
  {
    if a != [] {
      DistinctIsSame(a[..|a| - 1]);
      assert a == a[..|a| - 1] + [a[|a| - 1]];
    }
  }

  /** The preferred side's providers come first, in their order. */
  lemma ProvidersLead(mine: Method, twin: Method)
    requires forall i, j | 0 <= i < j < |mine.providers| :: mine.providers[i] != mine.providers[j]
    requires mine.temporarilyUnavailable == twin.temporarilyUnavailable
    ensures mine.providers <= Widened(mine, twin).providers
  {
    DistinctKeepsFront(mine.providers, twin.providers);
  }

  method MergeCorridorMaps(preferred: Option<map<string, Corridor>>, other: Option<map<string, Corridor>>)
    returns (merged: Option<map<string, Corridor>>)
    ensures preferred.None? || other.None? ==> merged == if preferred.Some? then preferred else other
    ensures preferred.Some? && other.Some? ==>
              && merged.Some? && merged.value.Keys == preferred.value.Keys + other.value.Keys
              && forall c | c in merged.value ::
                   Some(merged.value[c]) == MergeCorridor(Get(preferred.value, c), Get(other.value, c))
  {
    if preferred.None? || other.None? {
      return if preferred.Some? then preferred else other;
    }
    var all := preferred.value.Keys + other.value.Keys;
    var left, result := all, map[];
    while left != {}
      invariant left <= all && result.Keys == all - left
      invariant forall c | c in result ::
                  Some(result[c]) == MergeCorridor(Get(preferred.value, c), Get(other.value, c))
      decreases left
    {
      var country :| country in left;
      var corridor := MergeCorridor(Get(preferred.value, country), Get(other.value, country));
      if corridor.Some? {
        result := result[country := corridor.value];
      }
      left := left - {country};
    }
    merged := Some(result);
  }

  // ----- the region list

  datatype Country = Country(country: string, name: string)

  datatype Row = Row(country: string, name: string, fiat: Option<string>, min: Option<string>,
                     disabled: bool, temporarilyUnavailable: bool, belowMinimum: bool)

  /** `over`: whether a minimum in a currency is above what the buyer pays. */
  function RowOf(c: Country, corridor: Option<Corridor>, ui: string, over: (string, string) -> bool): Row {
    var mine := if corridor.Some? then MethodFor(corridor.value.methods, ui) else None;
    var fiat := if corridor.Some? then Some(corridor.value.fiat) else None;
    var named := Row(c.country, c.name, fiat, None, false, false, false);
    if mine.None? then named.(disabled := true)
    else if mine.value.temporarilyUnavailable then named.(temporarilyUnavailable := true)
    else if mine.value.min == "" || mine.value.currency == "" then named
    else named.(min := Some(mine.value.min), fiat := Some(mine.value.currency),
                belowMinimum := over(mine.value.min, mine.value.currency))
  }

  function CorridorOptions(base: seq<Country>, corridors: Option<map<string, Corridor>>, ui: string,
                           over: (string, string) -> bool): Option<seq<Row>> {
    if corridors.None? || corridors.value == map[] then None
    else Some(seq(|base|, i requires 0 <= i < |base| =>
                    RowOf(base[i], Get(corridors.value, base[i].country), ui, over)))
  }

  predicate IsPickable(o: Row) {
    !o.disabled && !o.belowMinimum && !o.temporarilyUnavailable
  }

  /** A labelled section of the list, its rows by their places. */
  datatype Group = Group(title: Option<string>, rows: seq<nat>)

  function Pin(rows: seq<Row>, detected: Option<string>): (r: Option<nat>)
    ensures r.Some? ==> r.value < |rows| && IsPickable(rows[r.value]) && detected == Some(rows[r.value].country)
    ensures r.Some? ==> forall i | 0 <= i < r.value :: !(IsPickable(rows[i]) && detected == Some(rows[i].country))
    ensures r.None? ==> forall i | 0 <= i < |rows| :: !(IsPickable(rows[i]) && detected == Some(rows[i].country))
  {
    if rows == [] then None
    else if detected == Some(rows[0].country) && IsPickable(rows[0]) then Some(0)
    else
      var r := Pin(rows[1..], detected);
      if r.None? then None else Some(r.value + 1)
  }

  /** The five sections a place can be in. */
  datatype Section = Pinned | Choice | UnderMinimum | Failing | Unsupported

  predicate InSection(rows: seq<Row>, pin: Option<nat>, section: Section, i: nat)
    requires i < |rows|
  {
    match section
    case Pinned => pin == Some(i)
    case Choice => pin != Some(i) && IsPickable(rows[i])
    case UnderMinimum => pin != Some(i) && rows[i].belowMinimum && !rows[i].disabled
    case Failing => pin != Some(i) && rows[i].temporarilyUnavailable
    case Unsupported => pin != Some(i) && rows[i].disabled
  }

  /** `filter`: the places under `n` in a section, in order. */
  function PlacesUpTo(rows: seq<Row>, pin: Option<nat>, section: Section, n: nat): seq<nat>
    requires n <= |rows|
  {
    if n == 0 then []
    else
      var front := PlacesUpTo(rows, pin, section, n - 1);
      if InSection(rows, pin, section, n - 1) then front + [n - 1] else front
  }

  function Places(rows: seq<Row>, pin: Option<nat>, section: Section): seq<nat> {
    PlacesUpTo(rows, pin, section, |rows|)
  }

  function Title(pin: Option<nat>, filtering: bool, section: Section): Option<string> {
    match section
    case Pinned => Some("Detected country")
    case Choice =>
      if filtering then None else Some(if pin.Some? then "Or choose another country" else "All countries")
    case UnderMinimum => Some("Minimum payment amount")
    case Failing => Some("Temporarily unavailable")
    case Unsupported => Some("Unsupported country")
  }

  const SECTIONS: seq<Section> := [Pinned, Choice, UnderMinimum, Failing, Unsupported]

  /** Sections with nothing in them are not shown. */
  function With(groups: seq<Group>, title: Option<string>, places: seq<nat>): seq<Group> {
    if places == [] then groups else groups + [Group(title, places)]
  }

  /** The groups of the first `k` sections. */
  function Listed(rows: seq<Row>, pin: Option<nat>, filtering: bool, k: nat): seq<Group>
    requires k <= |SECTIONS|
  {
    if k == 0 then []
    else
      var section := SECTIONS[k - 1];
      With(Listed(rows, pin, filtering, k - 1), Title(pin, filtering, section), Places(rows, pin, section))
  }

  function PinOf(rows: seq<Row>, detected: Option<string>, filtering: bool): Option<nat> {
    if filtering then None else Pin(rows, detected)
  }

  /** `add`, of the section after the first `k`. */
  method Add(groups: seq<Group>, list: seq<nat>, rows: seq<Row>, pin: Option<nat>, filtering: bool, k: nat)
    returns (r: seq<Group>)
    requires k < |SECTIONS| && list == Places(rows, pin, SECTIONS[k])
    requires groups == Listed(rows, pin, filtering, k)
    ensures r == Listed(rows, pin, filtering, k + 1)
  {
    r := groups;
    if |list| > 0 {
      r := r + [Group(Title(pin, filtering, SECTIONS[k]), list)];
    }
  }

  method RegionGroups(rows: seq<Row>, detected: Option<string>, filtering: bool) returns (groups: seq<Group>)
    ensures groups == Listed(rows, PinOf(rows, detected, filtering), filtering, |SECTIONS|)
  {
    var pin := PinOf(rows, detected, filtering);
    PinnedAlone(rows, pin, |rows|);
    groups := Add([], if pin.Some? then [pin.value] else [], rows, pin, filtering, 0);
    groups := Add(groups, Places(rows, pin, Choice), rows, pin, filtering, 1);
    groups := Add(groups, Places(rows, pin, UnderMinimum), rows, pin, filtering, 2);
    groups := Add(groups, Places(rows, pin, Failing), rows, pin, filtering, 3);
    groups := Add(groups, Places(rows, pin, Unsupported), rows, pin, filtering, 4);
  }

  lemma {:induction false} PinnedAlone(rows: seq<Row>, pin: Option<nat>, n: nat)
    requires n <= |rows|
    ensures PlacesUpTo(rows, pin, Pinned, n) == if pin.Some? && pin.value < n then [pin.value] else []
  {
    if n > 0 {
      PinnedAlone(rows, pin, n - 1);
    }
  }

  lemma {:induction false} PlacesCount(rows: seq<Row>, pin: Option<nat>, section: Section, n: nat, i: nat)
    requires n <= |rows|
    ensures multiset(PlacesUpTo(rows, pin, section, n))[i] == if i < n && InSection(rows, pin, section, i) then 1 else 0
  {
    if n > 0 {
      PlacesCount(rows, pin, section, n - 1, i);
      CountOfMore(PlacesUpTo(rows, pin, section, n - 1), n - 1, i);
    }
  }

  lemma CountOfMore(xs: seq<nat>, x: nat, i: nat)
    ensures multiset(xs + [x])[i] == multiset(xs)[i] + if i == x then 1 else 0
  {
  }

  /** The rows of all groups, one after the other. */
  function Flat(groups: seq<Group>): seq<nat> {
    if groups == [] then [] else Flat(groups[..|groups| - 1]) + groups[|groups| - 1].rows
  }

  /** How many of the first `k` sections a place is in. */
  function Times(rows: seq<Row>, pin: Option<nat>, k: nat, i: nat): nat
    requires k <= |SECTIONS|
  {
    if k == 0 then 0
    else Times(rows, pin, k - 1, i) + if i < |rows| && InSection(rows, pin, SECTIONS[k - 1], i) then 1 else 0
  }

  lemma {:induction false} FlatCounts(rows: seq<Row>, pin: Option<nat>, filtering: bool, k: nat, i: nat)
    requires k <= |SECTIONS|
    ensures multiset(Flat(Listed(rows, pin, filtering, k)))[i] == Times(rows, pin, k, i)
  {
    if k > 0 {
      FlatCounts(rows, pin, filtering, k - 1, i);
      PlacesCount(rows, pin, SECTIONS[k - 1], |rows|, i);
      FlatOfWith(Listed(rows, pin, filtering, k - 1), Title(pin, filtering, SECTIONS[k - 1]),
                 Places(rows, pin, SECTIONS[k - 1]), i);
    }
  }

  lemma {:induction false} FlatOfWith(groups: seq<Group>, title: Option<string>, places: seq<nat>, i: nat)
    ensures multiset(Flat(With(groups, title, places)))[i] == multiset(Flat(groups))[i] + multiset(places)[i]
  {
    if places != [] {
      var after := With(groups, title, places);
      assert after[..|after| - 1] == groups;
      assert Flat(after) == Flat(groups) + places;
    }
  }

  lemma {:induction false} TimesInAll(rows: seq<Row>, pin: Option<nat>, i: nat)
    ensures Times(rows, pin, |SECTIONS|, i) ==
              if i >= |rows| then 0
              else (if InSection(rows, pin, Pinned, i) then 1 else 0)
                   + (if InSection(rows, pin, Choice, i) then 1 else 0)
                   + (if InSection(rows, pin, UnderMinimum, i) then 1 else 0)
                   + (if InSection(rows, pin, Failing, i) then 1 else 0)
                   + (if InSection(rows, pin, Unsupported, i) then 1 else 0)
  {
    assert Times(rows, pin, 1, i) == if i < |rows| && InSection(rows, pin, Pinned, i) then 1 else 0;
    assert Times(rows, pin, 2, i) ==
           Times(rows, pin, 1, i) + if i < |rows| && InSection(rows, pin, Choice, i) then 1 else 0;
    assert Times(rows, pin, 3, i) ==
           Times(rows, pin, 2, i) + if i < |rows| && InSection(rows, pin, UnderMinimum, i) then 1 else 0;
    assert Times(rows, pin, 4, i) ==
           Times(rows, pin, 3, i) + if i < |rows| && InSection(rows, pin, Failing, i) then 1 else 0;
  }

  /** A failing row that is also unsupported, or under its minimum, is listed twice. */
  predicate TwiceListed(o: Row) {
    o.temporarilyUnavailable && (o.disabled || o.belowMinimum)
  }

  /** The places a screen's list shows, in order. */
  function ShownPlaces(rows: seq<Row>, detected: Option<string>, filtering: bool): seq<nat> {
    Flat(Listed(rows, PinOf(rows, detected, filtering), filtering, |SECTIONS|))
  }

  lemma TimesListed(rows: seq<Row>, detected: Option<string>, filtering: bool, i: nat)
    ensures multiset(ShownPlaces(rows, detected, filtering))[i] ==
              if i >= |rows| then 0 else if TwiceListed(rows[i]) then 2 else 1
  {
    var pin := PinOf(rows, detected, filtering);
    FlatCounts(rows, pin, filtering, |SECTIONS|, i);
    TimesInAll(rows, pin, i);
  }

  /** The list shows every row exactly once, whatever is detected and whether or not a filter runs,
      exactly when no failing row is also unsupported or under its minimum. */
  lemma GroupsPartitionIff(rows: seq<Row>, detected: Option<string>, filtering: bool)
    ensures var shown := multiset(ShownPlaces(rows, detected, filtering));
            && (forall i: nat | i >= |rows| :: shown[i] == 0)
            && ((forall i | 0 <= i < |rows| :: shown[i] == 1) <==>
                  (forall i | 0 <= i < |rows| :: !TwiceListed(rows[i])))
  {
    forall i: nat
      ensures multiset(ShownPlaces(rows, detected, filtering))[i] ==
              if i >= |rows| then 0 else if TwiceListed(rows[i]) then 2 else 1
    {
      TimesListed(rows, detected, filtering, i);
    }
  }

  /** A row carries one reason at most; it can be picked exactly when the first method of the kind is
      there, is not failing, and has no readable minimum above what is paid; and a minimum that is shown
      is that method's, in its currency. */
  lemma RowFits(c: Country, corridor: Option<Corridor>, ui: string, over: (string, string) -> bool)
    ensures var row := RowOf(c, corridor, ui, over);
            var mine := if corridor.Some? then MethodFor(corridor.value.methods, ui) else None;
            && row.country == c.country && row.name == c.name && !TwiceListed(row)
            && (row.disabled <==> mine.None?)
            && (row.temporarilyUnavailable <==> mine.Some? && mine.value.temporarilyUnavailable)
            && (row.belowMinimum <==> row.min.Some? && over(mine.value.min, mine.value.currency))
            && (row.min.Some? <==>
                  && mine.Some? && !mine.value.temporarilyUnavailable
                  && mine.value.min != "" && mine.value.currency != "")
            && (row.min.None? ==> row.fiat == if corridor.Some? then Some(corridor.value.fiat) else None)
            && (IsPickable(row) <==>
                  && mine.Some? && !mine.value.temporarilyUnavailable
                  && !(mine.value.min != "" && mine.value.currency != "" && over(mine.value.min, mine.value.currency)))
            && (row.min.Some? ==>
                  mine.Some? && row.min == Some(mine.value.min) && row.fiat == Some(mine.value.currency))
  {
  }

  /** There are no rows exactly while no corridor is read. */
  lemma OptionsIff(base: seq<Country>, corridors: Option<map<string, Corridor>>, ui: string,
                   over: (string, string) -> bool)
    ensures CorridorOptions(base, corridors, ui, over).None? <==> corridors.None? || corridors == Some(map[])
  {
  }

  // ----- the headings

  /** What a heading says of a row under it. */
  predicate HeadingFits(row: Row, title: Option<string>) {
    match title
    case None => IsPickable(row)
    case Some(text) =>
      || (text in {"All countries", "Or choose another country", "Detected country"} && IsPickable(row))
      || (text == "Minimum payment amount" && row.belowMinimum)
      || (text == "Temporarily unavailable" && row.temporarilyUnavailable)
      || (text == "Unsupported country" && row.disabled)
  }

  lemma {:induction false} PlacesAreIn(rows: seq<Row>, pin: Option<nat>, section: Section, n: nat)
    requires n <= |rows|
    ensures forall i | i in PlacesUpTo(rows, pin, section, n) :: i < n && InSection(rows, pin, section, i)
  {
    if n > 0 {
      PlacesAreIn(rows, pin, section, n - 1);
    }
  }

  ghost predicate GroupFits(rows: seq<Row>, group: Group) {
    group.rows != [] && forall i | i in group.rows :: i < |rows| && HeadingFits(rows[i], group.title)
  }

  lemma {:induction false} ListedFit(rows: seq<Row>, detected: Option<string>, filtering: bool, k: nat)
    requires k <= |SECTIONS|
    ensures forall group | group in Listed(rows, PinOf(rows, detected, filtering), filtering, k) ::
              GroupFits(rows, group)
  {
    if k > 0 {
      ListedFit(rows, detected, filtering, k - 1);
      PlacesAreIn(rows, PinOf(rows, detected, filtering), SECTIONS[k - 1], |rows|);
    }
  }

  predicate Leads(rows: seq<Row>, detected: Option<string>, i: int) {
    0 <= i < |rows| && IsPickable(rows[i]) && detected == Some(rows[i].country)
  }

  lemma {:induction false} PinLeads(rows: seq<Row>, detected: Option<string>)
    ensures Pin(rows, detected).Some? <==> exists i :: Leads(rows, detected, i)
    ensures Pin(rows, detected).Some? ==>
              && Leads(rows, detected, Pin(rows, detected).value)
              && forall i | 0 <= i < Pin(rows, detected).value :: !Leads(rows, detected, i)
  {
    if Pin(rows, detected).Some? {
      assert Leads(rows, detected, Pin(rows, detected).value);
    }
  }

  /** Every section shown has rows, and its heading says what each of them is. A region the device reports
      leads under its own heading exactly when it can be picked and no filter runs, the first such row
      alone; and the rows to choose from are unheaded under a filter, and headed by whether one leads. */
  lemma {:induction false} HeadingsFit(rows: seq<Row>, detected: Option<string>, filtering: bool)
    ensures var groups := Listed(rows, PinOf(rows, detected, filtering), filtering, 5);
            var leads := !filtering && exists i :: Leads(rows, detected, i);
            && (forall group | group in groups :: GroupFits(rows, group))
            && (leads <==> groups != [] && groups[0].title == Some("Detected country"))
            && (leads ==>
                  && |groups[0].rows| == 1 && Leads(rows, detected, groups[0].rows[0])
                  && forall i | 0 <= i < groups[0].rows[0] :: !Leads(rows, detected, i))
            && (forall group | group in groups && group.title == None :: filtering)
            && (forall group | group in groups && group.title == Some("All countries") :: !filtering && !leads)
            && (forall group | group in groups && group.title == Some("Or choose another country") :: leads)
  {
    var pin := PinOf(rows, detected, filtering);
    ListedFit(rows, detected, filtering, |SECTIONS|);
    PinLeads(rows, detected);
    TitlesFit(rows, pin, filtering, |SECTIONS|);
  }

  lemma {:induction false} FirstGroup(rows: seq<Row>, pin: Option<nat>, filtering: bool)
    requires pin.Some? ==> pin.value < |rows|
    ensures Listed(rows, pin, filtering, 1)
            == if pin.Some? then [Group(Some("Detected country"), [pin.value])] else []
  {
    PinnedAlone(rows, pin, |rows|);
    assert Listed(rows, pin, filtering, 0) == [];
  }

  predicate TitleFits(group: Group, pin: Option<nat>, filtering: bool) {
    && (group.title == None ==> filtering)
    && (group.title == Some("All countries") ==> !filtering && pin.None?)
    && (group.title == Some("Or choose another country") ==> !filtering && pin.Some?)
  }

  lemma {:induction false} TitlesFit(rows: seq<Row>, pin: Option<nat>, filtering: bool, k: nat)
    requires 0 < k <= |SECTIONS| && (pin.Some? ==> pin.value < |rows|)
    ensures var groups := Listed(rows, pin, filtering, k);
            && (forall group | group in groups :: TitleFits(group, pin, filtering))
            && (pin.Some? <==> groups != [] && groups[0].title == Some("Detected country"))
            && (pin.Some? ==> groups[0].rows == [pin.value])
  {
    if k == 1 {
      FirstGroup(rows, pin, filtering);
    } else {
      TitlesFit(rows, pin, filtering, k - 1);
      assert TitleFits(Group(Title(pin, filtering, SECTIONS[k - 1]), []), pin, filtering);
    }
  }

  /** So the regions of a catalog are listed once each, in whatever section their row belongs to. */
  lemma CatalogRowsAreListedOnce(base: seq<Country>, corridors: map<string, Corridor>, ui: string,
                                 over: (string, string) -> bool, detected: Option<string>, filtering: bool, i: nat)
    requires corridors != map[] && i < |base|
    ensures var rows := CorridorOptions(base, Some(corridors), ui, over).value;
            && |rows| == |base| && rows[i] == RowOf(base[i], Get(corridors, base[i].country), ui, over)
            && multiset(ShownPlaces(rows, detected, filtering))[i] == 1
  {
    RowFits(base[i], Get(corridors, base[i].country), ui, over);
    TimesListed(CorridorOptions(base, Some(corridors), ui, over).value, detected, filtering, i);
  }
}
