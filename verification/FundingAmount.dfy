/** Funding amounts as text: reading, writing and making canonical. */
module FundingAmount {
  import opened Wrappers
  import opened Digits

  /** What `String.prototype.trim` takes away. */
  predicate IsSpace(c: char) {
    || '\t' <= c <= '\r' || c == ' ' || c == '\U{A0}' || c == '\U{1680}' || '\U{2000}' <= c <= '\U{200A}'
    || '\U{2028}' <= c <= '\U{2029}' || c == '\U{202F}' || c == '\U{205F}' || c == '\U{3000}' || c == '\U{FEFF}'
  }

  function Trim(s: string): string
    decreases |s|
  {
    if s != "" && IsSpace(s[0]) then Trim(s[1..])
    else if s != "" && IsSpace(s[|s| - 1]) then Trim(s[..|s| - 1])
    else s
  }

  /** The text before the first dot, and the text after it when there is one. */
  datatype Parts = Parts(whole: string, fraction: Option<string>)

  function Split(s: string): Parts {
    if s == "" then Parts("", None)
    else if s[0] == '.' then Parts("", Some(s[1..]))
    else var rest := Split(s[1..]); rest.(whole := [s[0]] + rest.whole)
  }

  function Join(p: Parts): string {
    p.whole + if p.fraction.Some? then "." + p.fraction.value else ""
  }

  /** `(0|[1-9]\d*)(\.\d*)?` */
  predicate WellFormed(p: Parts) {
    Canonical(p.whole) && (p.fraction.Some? ==> AllDigits(p.fraction.value))
  }

  predicate Matches(s: string) {
    WellFormed(Split(s))
  }

  function FractionOf(p: Parts): string {
    if p.fraction.Some? then p.fraction.value else ""
  }

  function ValueOf(p: Parts, decimals: nat): nat
    requires WellFormed(p) && |FractionOf(p)| <= decimals
  {
    assert AllDigits(PadEnd(FractionOf(p), decimals));
    Value(p.whole) * Pow10(decimals) + Value(PadEnd(FractionOf(p), decimals))
  }

  function Parse(value: string, decimals: int): Option<nat> {
    if decimals < 0 then None
    else
      var parts := Split(Trim(value));
      if !WellFormed(parts) || |FractionOf(parts)| > decimals then None
      else Some(ValueOf(parts, decimals))
  }

  /** Throws for a negative amount or precision. */
  function Format(baseUnits: int, decimals: int): Result<string, string> {
    if baseUnits < 0 || decimals < 0 then
      Err("Funding amounts must be non-negative with integer precision")
    else Ok(Text(baseUnits, decimals))
  }

  function Text(baseUnits: nat, decimals: nat): string {
    if decimals == 0 then Show(baseUnits)
    else
      var padded := PadStart(Show(baseUnits), decimals + 1);
      var whole := padded[..|padded| - decimals];
      var fraction := StripZeros(padded[|padded| - decimals..]);
      if fraction == "" then whole else whole + "." + fraction
  }

  function Canonicalize(value: string, decimals: int): Option<string> {
    var parsed := Parse(value, decimals);
    if parsed.None? then None else Some(Text(parsed.value, decimals))
  }

  // ----- splitting and joining

  lemma {:induction false} SplitJoins(p: Parts)
    requires '.' !in p.whole
    ensures Split(Join(p)) == p
    decreases |p.whole|
  {
    if p.whole == "" {
      if p.fraction.Some? {
        assert Join(p) == "." + p.fraction.value;
      }
    } else {
      var rest := p.(whole := p.whole[1..]);
      SplitJoins(rest);
      assert Join(p)[1..] == Join(rest);
      assert p.whole == [p.whole[0]] + rest.whole;
    }
  }

  lemma {:induction false} JoinSplits(s: string)
    ensures Join(Split(s)) == s && '.' !in Split(s).whole
  {
    if s != "" && s[0] == '.' {
      assert s == "." + s[1..];
    } else if s != "" {
      JoinSplits(s[1..]);
    }
  }

  lemma {:induction false} NothingToTrim(s: string)
    requires s == "" || (!IsSpace(s[0]) && !IsSpace(s[|s| - 1]))
    ensures Trim(s) == s
  {
  }

  lemma EndsAreText(p: Parts)
    requires WellFormed(p)
    ensures var s := Join(p);
            s != "" && IsDigit(s[0]) && (IsDigit(s[|s| - 1]) || s[|s| - 1] == '.')
  {
  }

  lemma TextIsNoSpace(c: char)
    requires IsDigit(c) || c == '.'
    ensures !IsSpace(c)
  {
  }

  lemma {:induction false} MatchesNeedsNoTrim(s: string)
    requires Matches(s)
    ensures Trim(s) == s
  {
    JoinSplits(s);
    EndsAreText(Split(s));
    TextIsNoSpace(s[0]);
    TextIsNoSpace(s[|s| - 1]);
    NothingToTrim(s);
  }

  lemma {:induction false} TrimsBack(s: string, c: char)
    requires IsSpace(c)
    ensures Trim(s + [c]) == Trim(s)
  {
    if s == "" {
      assert Trim([c]) == Trim("");
      assert s + [c] == [c];
    } else if IsSpace(s[0]) {
      TrimsBack(s[1..], c);
      assert (s + [c])[1..] == s[1..] + [c];
    } else {
      assert (s + [c])[..|s|] == s;
    }
  }

  predicate AllSpace(s: string) {
    forall i | 0 <= i < |s| :: IsSpace(s[i])
  }

  lemma {:induction false} SpacesTrimBack(s: string, after: string)
    requires AllSpace(after)
    ensures Trim(s + after) == Trim(s)
  {
    if after == "" {
      assert s + after == s;
    } else {
      var front, last := after[..|after| - 1], after[|after| - 1];
      SpacesTrimBack(s, front);
      TrimsBack(s + front, last);
      assert s + after == s + front + [last];
    }
  }

  lemma {:induction false} TrimsFront(c: char, s: string)
    requires IsSpace(c)
    ensures Trim([c] + s) == Trim(s)
  {
    assert ([c] + s)[1..] == s;
  }

  lemma {:induction false} SpacesTrimFront(before: string, s: string)
    requires AllSpace(before)
    ensures Trim(before + s) == Trim(s)
  {
    if before == "" {
      assert before + s == s;
    } else {
      var front, last := before[..|before| - 1], before[|before| - 1];
      SpacesTrimFront(front, [last] + s);
      TrimsFront(last, s);
      assert before + s == front + ([last] + s);
    }
  }

  /** Whatever white space stands around a text, trimming comes to the same. */
  lemma {:induction false} SpacesAreTrimmed(before: string, s: string, after: string)
    requires AllSpace(before) && AllSpace(after)
    ensures Trim(before + s + after) == Trim(s)
  {
    SpacesTrimBack(before + s, after);
    SpacesTrimFront(before, s);
  }

  // ----- round trips

  lemma PaddedSplits(baseUnits: nat, decimals: nat) returns (whole: string, full: string)
    requires decimals > 0
    ensures PadStart(Show(baseUnits), decimals + 1) == whole + full
    ensures var padded := PadStart(Show(baseUnits), decimals + 1);
            |padded| > decimals && whole == padded[..|padded| - decimals] && full == padded[|padded| - decimals..]
    ensures Canonical(whole) && AllDigits(full) && |full| == decimals
    ensures Value(whole) * Pow10(decimals) + Value(full) == baseUnits
  {
    ShowIsCanonical(baseUnits);
    PadStartKeepsValue(Show(baseUnits), decimals + 1);
    var padded := PadStart(Show(baseUnits), decimals + 1);
    whole, full := padded[..|padded| - decimals], padded[|padded| - decimals..];
    assert padded == whole + full;
    ValueOfJoin(whole, full);
  }

  /** The parts `Text` writes: the quotient, and the rest at its full width before trimming. */
  lemma TextParts(baseUnits: nat, decimals: nat) returns (p: Parts)
    ensures WellFormed(p) && Text(baseUnits, decimals) == Join(p)
    ensures |FractionOf(p)| <= decimals && ValueOf(p, decimals) == baseUnits
    ensures p.fraction.Some? ==> p.fraction.value != "" && p.fraction.value[|p.fraction.value| - 1] != '0'
  {
    if decimals == 0 {
      ShowIsCanonical(baseUnits);
      p := Parts(Show(baseUnits), None);
      assert Join(p) == Show(baseUnits);
      assert ValueOf(p, 0) == baseUnits * Pow10(0);
    } else {
      var whole, full := PaddedSplits(baseUnits, decimals);
      p := TrimmedParts(whole, full);
      assert ValueOf(p, decimals) == Value(whole) * Pow10(decimals) + Value(full);
    }
  }

  /** The parts left when the fraction's trailing zeros go. */
  lemma TrimmedParts(whole: string, full: string) returns (p: Parts)
    requires Canonical(whole) && AllDigits(full)
    ensures WellFormed(p) && p.whole == whole && PadEnd(FractionOf(p), |full|) == full
    ensures |FractionOf(p)| <= |full|
    ensures Join(p) == if StripZeros(full) == "" then whole else whole + "." + StripZeros(full)
    ensures p.fraction.Some? ==> p.fraction.value != "" && p.fraction.value[|p.fraction.value| - 1] != '0'
  {
    StripZerosPadsBack(full);
    var fraction := StripZeros(full);
    p := Parts(whole, if fraction == "" then None else Some(fraction));
    assert whole + ("." + fraction) == whole + "." + fraction;
  }

  /** Every amount, at every precision, reads back from its own text; the others have none. */
  lemma ParseOfFormat(baseUnits: int, decimals: int)
    ensures Format(baseUnits, decimals).Ok? <==> baseUnits >= 0 && decimals >= 0
    ensures Format(baseUnits, decimals).Ok? ==>
              Parse(Format(baseUnits, decimals).value, decimals) == Some(baseUnits)
              && Matches(Text(baseUnits, decimals))
  {
    if baseUnits >= 0 && decimals >= 0 {
      var p := TextParts(baseUnits, decimals);
      SplitJoins(p);
      MatchesNeedsNoTrim(Text(baseUnits, decimals));
    }
  }

  lemma {:induction false} DigitsAreValue(a: string, b: string)
    requires AllDigits(a) && AllDigits(b) && |a| == |b| && Value(a) == Value(b)
    ensures a == b
  {
    if a != "" {
      DigitsAreValue(a[..|a| - 1], b[..|b| - 1]);
      assert a == a[..|a| - 1] + [a[|a| - 1]] && b == b[..|b| - 1] + [b[|b| - 1]];
    }
  }

  lemma {:induction false} ValueIsBelow(s: string)
    requires AllDigits(s)
    ensures Value(s) < Pow10(|s|)
  {
    if s != "" {
      ValueIsBelow(s[..|s| - 1]);
    }
  }

  lemma QuotientIsOne(a: nat, b: nat, x: nat, y: nat, p: nat)
    requires a * p + x == b * p + y && x < p && y < p
    ensures a == b && x == y
  {
    TimesIsMonotone(p, a + 1, b);
    TimesIsMonotone(p, b + 1, a);
  }

  lemma {:induction false} ValuesAreOne(whole: string, full: string, other: string, rest: string, n: nat)
    requires AllDigits(whole) && AllDigits(full) && AllDigits(other) && AllDigits(rest) && |full| == |rest|
    requires n == Value(whole) * Pow10(|full|) + Value(full) == Value(other) * Pow10(|full|) + Value(rest)
    ensures Value(whole) == Value(other) && Value(full) == Value(rest)
  {
    ValueIsBelow(full);
    ValueIsBelow(rest);
    QuotientIsOne(Value(whole), Value(other), Value(full), Value(rest), Pow10(|full|));
  }

  lemma {:induction false} CanonicalIsOne(whole: string, other: string)
    requires Canonical(whole) && Canonical(other) && Value(whole) == Value(other)
    ensures whole == other
  {
    CanonicalIsShown(whole);
    CanonicalIsShown(other);
  }

  /** The digits of a number are its only digits: a whole part and a fraction of known width. */
  lemma {:induction false} PaddedIsOnly(whole: string, full: string, n: nat)
    requires Canonical(whole) && AllDigits(full) && full != "" && n == Value(whole) * Pow10(|full|) + Value(full)
    ensures PadStart(Show(n), |full| + 1) == whole + full
  {
    var other, rest := PaddedSplits(n, |full|);
    ValuesAreOne(whole, full, other, rest, n);
    CanonicalIsOne(whole, other);
    DigitsAreValue(full, rest);
  }

  lemma SumSplits(a: string, b: string, c: string, d: string)
    requires a + b == c + d && |b| == |d|
    ensures a == c && b == d
  {
    assert |a| == |c|;
    assert (a + b)[..|a|] == a && (c + d)[..|c|] == c;
    assert (a + b)[|a|..] == b && (c + d)[|c|..] == d;
  }

  lemma {:induction false} DigitsMakeParts(p: Parts, decimals: nat, n: nat)
    requires |FractionOf(p)| <= decimals
    requires p.whole + PadEnd(FractionOf(p), decimals) == PadStart(Show(n), decimals + 1)
    ensures WellFormed(p)
  {
    ShowIsCanonical(n);
    if decimals == 0 {
      assert p.whole + PadEnd(FractionOf(p), 0) == p.whole;
    } else {
      var whole, full := PaddedSplits(n, decimals);
      SumSplits(p.whole, PadEnd(FractionOf(p), decimals), whole, full);
      assert FractionOf(p) == full[..|FractionOf(p)|];
    }
  }

  lemma PartsMakeDigits(p: Parts, decimals: nat)
    requires WellFormed(p) && |FractionOf(p)| <= decimals
    ensures p.whole + PadEnd(FractionOf(p), decimals) == PadStart(Show(ValueOf(p, decimals)), decimals + 1)
  {
    if decimals == 0 {
      CanonicalIsShown(p.whole);
      assert ValueOf(p, 0) == Value(p.whole) * Pow10(0);
      assert p.whole + PadEnd(FractionOf(p), 0) == p.whole;
    } else {
      assert AllDigits(PadEnd(FractionOf(p), decimals));
      PaddedIsOnly(p.whole, PadEnd(FractionOf(p), decimals), ValueOf(p, decimals));
    }
  }

  /** Which texts read as `n`: those that, white space around them aside, have a whole part and at most
      `decimals` places which, filled up with zeros, are the digits of `n`. */
  lemma {:induction false} ReadsIff(before: string, value: string, after: string, decimals: int, n: nat)
    requires AllSpace(before) && AllSpace(after)
    requires value == "" || (!IsSpace(value[0]) && !IsSpace(value[|value| - 1]))
    ensures var p := Split(value);
            Parse(before + value + after, decimals) == Some(n)
            <==> decimals >= 0 && |FractionOf(p)| <= decimals
                 && p.whole + PadEnd(FractionOf(p), decimals) == PadStart(Show(n), decimals + 1)
  {
    SpacesAreTrimmed(before, value, after);
    NothingToTrim(value);
    var p := Split(value);
    if decimals >= 0 && |FractionOf(p)| <= decimals {
      if WellFormed(p) {
        PartsMakeDigits(p, decimals);
        ShowsOnce(ValueOf(p, decimals), n, decimals + 1);
      } else if p.whole + PadEnd(FractionOf(p), decimals) == PadStart(Show(n), decimals + 1) {
        DigitsMakeParts(p, decimals, n);
      }
    }
  }

  lemma {:induction false} ShowsOnce(a: nat, b: nat, width: nat)
    ensures PadStart(Show(a), width) == PadStart(Show(b), width) ==> a == b
  {
    ShowIsCanonical(a);
    ShowIsCanonical(b);
    PadStartKeepsValue(Show(a), width);
    PadStartKeepsValue(Show(b), width);
  }

  /** A canonical text is its own canonical text, and two texts of one amount share it. */
  lemma CanonicalizeIsIdempotent(value: string, other: string, decimals: int)
    ensures Canonicalize(value, decimals).Some? ==>
              Canonicalize(Canonicalize(value, decimals).value, decimals) == Canonicalize(value, decimals)
    ensures Parse(value, decimals).Some? && Parse(other, decimals).Some? ==>
              (Canonicalize(value, decimals) == Canonicalize(other, decimals)
               <==> Parse(value, decimals) == Parse(other, decimals))
  {
    if Parse(value, decimals).Some? {
      ParseOfFormat(Parse(value, decimals).value, decimals);
    }
    if Parse(other, decimals).Some? {
      ParseOfFormat(Parse(other, decimals).value, decimals);
    }
  }
}
