/** CASH amounts between base units, screen text and the keypad's own scale. */
module Cash {
  import opened Wrappers
  import opened Digits
  import opened FundingAmount

  const CASH_DECIMALS: nat := 6

  /** A locale decimal pad may yield a comma separator: the first one becomes a dot. */
  function CommaToDot(s: string): string {
    if s == "" then "" else if s[0] == ',' then "." + s[1..] else [s[0]] + CommaToDot(s[1..])
  }

  function ToCashBase(human: string): Option<nat> {
    var trimmed := CommaToDot(Trim(human));
    var parts := Split(trimmed);
    var fraction := FractionOf(parts);
    if !AllDigits(parts.whole) || !AllDigits(fraction) || trimmed == "" || trimmed == "." then None
    else if |fraction| > CASH_DECIMALS then None
    else
      assert AllDigits(PadEnd(fraction, CASH_DECIMALS));
      var base := Value(parts.whole) * Pow10(CASH_DECIMALS) + Value(PadEnd(fraction, CASH_DECIMALS));
      if base > 0 then Some(base) else None
  }

  /** `replace(/\.?0+$/, "")` */
  function StripTail(s: string): string {
    var t := StripZeros(s);
    if t != s && t != "" && t[|t| - 1] == '.' then t[..|t| - 1] else t
  }

  /** The digits of `units` with a dot `decimals` places from the end. */
  function Dotted(units: nat, decimals: nat): string {
    var s := PadStart(Show(units), decimals + 1);
    s[..|s| - decimals] + "." + s[|s| - decimals..]
  }

  function FmtCash(base: nat): string {
    var text := StripTail(Dotted(base, CASH_DECIMALS));
    if text == "" then "0" else text
  }

  function CashToRuleUnits(base: nat, decimals: nat): nat {
    if decimals <= CASH_DECIMALS then Over(base, Pow10(CASH_DECIMALS - decimals))
    else Times(base, Pow10(decimals - CASH_DECIMALS))
  }

  function CashToAmountInput(base: nat, decimals: nat): string {
    var scaled := CashToRuleUnits(base, decimals);
    if decimals == 0 then Show(scaled) else StripTail(Dotted(scaled, decimals))
  }

  lemma {:induction false} StripZerosOfDotted(whole: string, full: string)
    requires |full| > 0
    ensures StripZeros(whole + "." + full) == whole + "." + StripZeros(full)
    decreases |full|
  {
    var s := whole + "." + full;
    var front := full[..|full| - 1];
    assert s[..|s| - 1] == whole + "." + front;
    if full[|full| - 1] == '0' {
      if front == "" {
        assert StripZeros("") == "";
        assert s[..|s| - 1] == whole + "." + "";
        assert StripZeros(whole + ".") == whole + ".";
        assert whole + "." + "" == whole + ".";
      } else {
        StripZerosOfDotted(whole, front);
      }
    }
  }

  lemma {:induction false} TailOfDotted(whole: string, full: string)
    requires full != "" && AllDigits(full)
    ensures StripTail(whole + "." + full)
            == if StripZeros(full) == "" then whole else whole + "." + StripZeros(full)
  {
    StripZerosPadsBack(full);
    StripZerosOfDotted(whole, full);
    var s, fraction := whole + "." + full, StripZeros(full);
    var t := StripZeros(s);
    if fraction == "" {
      assert t == whole + ".";
      assert t[..|t| - 1] == whole;
      assert |t| < |s|;
    } else {
      assert t == whole + "." + fraction;
      assert t[|t| - 1] == fraction[|fraction| - 1];
      assert IsDigit(fraction[|fraction| - 1]);
    }
  }

  /** Trimming the written number is writing the trimmed parts: both texts of an amount agree. */
  lemma TailIsText(units: nat, decimals: nat)
    requires decimals > 0
    ensures StripTail(Dotted(units, decimals)) == Text(units, decimals)
  {
    var whole, full := PaddedSplits(units, decimals);
    TailOfDotted(whole, full);
  }

  lemma {:induction false} NoCommaNoChange(s: string)
    requires ',' !in s
    ensures CommaToDot(s) == s
  {
    if s != "" {
      NoCommaNoChange(s[1..]);
      assert s == [s[0]] + s[1..];
    }
  }

  lemma {:induction false} FirstCommaIsDot(whole: string, rest: string)
    requires ',' !in whole
    ensures CommaToDot(whole + "," + rest) == whole + "." + rest
  {
    var s := whole + "," + rest;
    if whole != "" {
      FirstCommaIsDot(whole[1..], rest);
      assert s[1..] == whole[1..] + "," + rest;
      assert whole == [whole[0]] + whole[1..];
    }
  }

  /** The digits of both sides as one number, the fraction padded to six places. */
  function Typed(whole: string, fraction: string): nat
    requires AllDigits(whole) && AllDigits(fraction)
  {
    assert AllDigits(whole + PadEnd(fraction, 6));
    Value(whole + PadEnd(fraction, 6))
  }

  lemma {:induction false} TypedIsBase(whole: string, fraction: string)
    requires AllDigits(whole) && AllDigits(fraction) && |fraction| <= CASH_DECIMALS
    ensures AllDigits(PadEnd(fraction, CASH_DECIMALS))
    ensures Value(whole) * Pow10(CASH_DECIMALS) + Value(PadEnd(fraction, CASH_DECIMALS)) == Typed(whole, fraction)
  {
    ValueOfJoin(whole, PadEnd(fraction, CASH_DECIMALS));
  }

  lemma {:induction false} DottedIsRead(s: string, whole: string, fraction: string)
    requires AllDigits(whole) && AllDigits(fraction) && CommaToDot(Trim(s)) == whole + "." + fraction
    ensures ToCashBase(s)
            == if |fraction| > CASH_DECIMALS || (whole == "" && fraction == "") || Typed(whole, fraction) == 0 then None
               else Some(Typed(whole, fraction))
  {
    var typed := whole + "." + fraction;
    assert typed == Join(Parts(whole, Some(fraction)));
    SplitJoins(Parts(whole, Some(fraction)));
    assert typed == "." <==> whole == "" && fraction == "" by {
      assert |typed| == |whole| + 1 + |fraction|;
    }
    if |fraction| <= CASH_DECIMALS {
      TypedIsBase(whole, fraction);
    }
  }

  lemma {:induction false} TypedNeedsNoTrim(whole: string, mark: char, fraction: string)
    requires AllDigits(whole) && AllDigits(fraction) && !IsSpace(mark)
    ensures Trim(whole + [mark] + fraction) == whole + [mark] + fraction
  {
    var s := whole + [mark] + fraction;
    assert s[0] == if whole == "" then mark else whole[0];
    assert s[|s| - 1] == if fraction == "" then mark else fraction[|fraction| - 1];
    NothingToTrim(s);
  }

  lemma {:induction false} WholeIsRead(s: string, whole: string)
    requires AllDigits(whole) && CommaToDot(Trim(s)) == whole
    ensures ToCashBase(s) == if whole == "" || Typed(whole, "") == 0 then None else Some(Typed(whole, ""))
  {
    SplitJoins(Parts(whole, None));
    assert whole == Join(Parts(whole, None));
    TypedIsBase(whole, "");
  }

  lemma {:induction false} DigitsNeedNoTrim(whole: string)
    requires AllDigits(whole)
    ensures Trim(whole) == whole && ',' !in whole
  {
    NothingToTrim(whole);
  }

  /** What is typed with a dot, with a comma or with neither, white space around it or not, is read as its
      digits, the fraction padded to six places: as none for nothing, for more than six places, and for a
      bare mark. */
  lemma {:induction false} TypedIsRead(before: string, whole: string, fraction: string, after: string)
    requires AllSpace(before) && AllDigits(whole) && AllDigits(fraction) && AllSpace(after)
    ensures var read := if |fraction| > 6 || (whole == "" && fraction == "") || Typed(whole, fraction) == 0 then None
                        else Some(Typed(whole, fraction));
            && ToCashBase(before + (whole + "." + fraction) + after) == read
            && ToCashBase(before + (whole + "," + fraction) + after) == read
            && (fraction == "" ==> ToCashBase(before + whole + after) == read)
  {
    MarkedIsRead(before, whole, '.', fraction, after);
    MarkedIsRead(before, whole, ',', fraction, after);
    SpacesAreTrimmed(before, whole, after);
    DigitsNeedNoTrim(whole);
    NoCommaNoChange(whole);
    if fraction == "" {
      WholeIsRead(before + whole + after, whole);
    }
  }

  lemma {:induction false} MarkedIsRead(
      before: string, whole: string, mark: char, fraction: string, after: string)
    requires AllSpace(before) && AllDigits(whole) && AllDigits(fraction) && AllSpace(after)
    requires mark == '.' || mark == ','
    ensures ToCashBase(before + (whole + [mark] + fraction) + after)
            == if |fraction| > 6 || (whole == "" && fraction == "") || Typed(whole, fraction) == 0 then None
               else Some(Typed(whole, fraction))
  {
    SpacesAreTrimmed(before, whole + [mark] + fraction, after);
    TypedNeedsNoTrim(whole, mark, fraction);
    if mark == '.' {
      NoCommaNoChange(whole + "." + fraction);
    } else {
      FirstCommaIsDot(whole, fraction);
    }
    DottedIsRead(before + (whole + [mark] + fraction) + after, whole, fraction);
  }

  lemma WellFormedReads(p: Parts)
    requires WellFormed(p) && |FractionOf(p)| <= CASH_DECIMALS
    ensures ToCashBase(Join(p))
            == if ValueOf(p, CASH_DECIMALS) > 0 then Some(ValueOf(p, CASH_DECIMALS)) else None
  {
    SplitJoins(p);
    MatchesNeedsNoTrim(Join(p));
    NoCommaNoChange(Join(p));
    assert |Join(p)| >= |p.whole| >= 1 && Join(p)[0] == p.whole[0];
  }

  /** Every positive amount reads back from the text the screens show, and zero reads as none. */
  lemma CashTextReadsBack(base: nat)
    ensures ToCashBase(FmtCash(base)) == if base > 0 then Some(base) else None
  {
    TailIsText(base, CASH_DECIMALS);
    var p := TextParts(base, CASH_DECIMALS);
    WellFormedReads(p);
  }

  /** The keypad's text of a balance is worth at most the balance, and less than one keypad unit
      under it; at a finer scale than the balance's own it is worth it exactly. */
  lemma {:induction false} KeypadTextIsRoundedDown(base: nat, decimals: nat)
    ensures var parsed := Parse(CashToAmountInput(base, decimals), decimals);
            && parsed.Some?
            && (decimals <= CASH_DECIMALS ==>
                  var unit := Pow10(CASH_DECIMALS - decimals);
                  parsed.value * unit <= base < (parsed.value + 1) * unit)
            && (decimals > CASH_DECIMALS ==> parsed.value == base * Pow10(decimals - CASH_DECIMALS))
  {
    var scaled := CashToRuleUnits(base, decimals);
    ParseOfFormat(scaled, decimals);
    if decimals > 0 {
      TailIsText(scaled, decimals);
    }
    if decimals <= CASH_DECIMALS {
      QuotientBounds(base, Pow10(CASH_DECIMALS - decimals));
    }
  }

  lemma QuotientBounds(n: nat, d: nat)
    requires d > 0
    ensures n / d * d <= n < (n / d + 1) * d
  {
    assert n == d * (n / d) + n % d;
  }
}
