/** The amount keypad: what a run of keys can enter, and that every amount can be entered. */
module Keypad {
  import opened Wrappers
  import opened Digits
  import opened FundingAmount

  const MAX_WHOLE_DIGITS := 9

  type DigitKey = c: char | IsDigit(c) witness '0'

  datatype Key = Digit(digit: DigitKey) | Dot | Delete

  datatype Rules = Rules(decimals: nat, maximum: string)

  datatype Entry = Entry(amount: string, hitMaximum: bool)

  predicate Exceeds(text: string, rules: Rules) {
    var value, maximum := Parse(text, rules.decimals), Parse(rules.maximum, rules.decimals);
    value.Some? && maximum.Some? && value.value > maximum.value
  }

  function Reduce(current: string, key: Key, rules: Rules): Entry {
    var editable := if current == "" || Matches(current) then current else "";
    match key
    case Delete => Entry(if editable == "" then "" else editable[..|editable| - 1], false)
    case Dot =>
      if rules.decimals == 0 || '.' in editable then Entry(editable, false)
      else Entry(if editable == "" then "0." else editable + ".", false)
    case Digit(digit) =>
      var parts := Split(editable);
      if parts.fraction.Some? && |parts.fraction.value| >= rules.decimals then Entry(editable, false)
      else
        var next := if (editable == "" || editable == "0") && parts.fraction.None? then [digit] else editable + [digit];
        if Exceeds(next, rules) then Entry(editable, true)
        else if parts.fraction.None? && |parts.whole| >= MAX_WHOLE_DIGITS then Entry(editable, false)
        else Entry(next, false)
  }

  /** The text after a run of keys from the empty entry. */
  function Typed(keys: seq<Key>, rules: Rules): string {
    if keys == [] then "" else Reduce(Typed(keys[..|keys| - 1], rules), keys[|keys| - 1], rules).amount
  }

  predicate Shaped(text: string, rules: Rules) {
    text != "" ==>
      var parts := Split(text);
      && WellFormed(parts)
      && |FractionOf(parts)| <= rules.decimals && (parts.fraction.Some? ==> rules.decimals > 0)
      && |parts.whole| <= 9
  }

  /** What the display may show: nothing yet, or an amount inside every limit. */
  predicate Enterable(text: string, rules: Rules) {
    Shaped(text, rules) && (text != "" ==> !Exceeds(text, rules))
  }

  // ----- what a text's last character adds

  lemma FractionDigitAdds(f: string, decimals: nat)
    requires AllDigits(f) && 0 < |f| <= decimals
    ensures AllDigits(PadEnd(f, decimals)) && AllDigits(PadEnd(f[..|f| - 1], decimals))
    ensures Value(PadEnd(f[..|f| - 1], decimals)) <= Value(PadEnd(f, decimals))
  {
    var front := f[..|f| - 1];
    ValueOfPadEnd(f, decimals);
    ValueOfPadEnd(front, decimals);
    Scaled(Value(front), Value(f), Pow10(decimals - |f|));
  }

  lemma Scaled(v: nat, w: nat, p: nat)
    requires 10 * v <= w
    ensures v * (10 * p) <= w * p
  {
    assert v * (10 * p) == p * (10 * v);
    TimesIsMonotone(p, 10 * v, w);
  }

  /** Everything but the last character. */
  function Shorter(p: Parts): Parts
    requires Join(p) != ""
  {
    match p.fraction
    case None => p.(whole := p.whole[..|p.whole| - 1])
    case Some(f) => p.(fraction := if f == "" then None else Some(f[..|f| - 1]))
  }

  lemma ShorterIsDropLast(p: Parts)
    requires '.' !in p.whole && Join(p) != ""
    ensures Split(Join(p)[..|Join(p)| - 1]) == Shorter(p)
  {
    assert Join(p)[..|Join(p)| - 1] == Join(Shorter(p));
    SplitJoins(Shorter(p));
  }

  lemma ShorterIsLess(p: Parts, decimals: nat)
    requires WellFormed(p) && |FractionOf(p)| <= decimals && Shorter(p).whole != ""
    ensures WellFormed(Shorter(p)) && |FractionOf(Shorter(p))| <= decimals
    ensures ValueOf(Shorter(p), decimals) <= ValueOf(p, decimals)
  {
    match p.fraction
    case None =>
      var front := p.whole[..|p.whole| - 1];
      TimesIsMonotone(Pow10(decimals), Value(front), Value(p.whole));
    case Some(f) =>
      if f != "" {
        FractionDigitAdds(f, decimals);
      }
  }

  lemma {:induction false} ParsesTo(text: string, decimals: nat)
    requires Matches(text) && |FractionOf(Split(text))| <= decimals
    ensures Parse(text, decimals) == Some(ValueOf(Split(text), decimals))
  {
    MatchesNeedsNoTrim(text);
  }

  lemma DropLastStaysEnterable(text: string, rules: Rules)
    requires Enterable(text, rules) && text != ""
    ensures Enterable(text[..|text| - 1], rules)
  {
    var p, front := Split(text), text[..|text| - 1];
    JoinSplits(text);
    JoinSplits(front);
    ShorterIsDropLast(p);
    if front != "" {
      ShorterIsLess(p, rules.decimals);
      ParsesTo(text, rules.decimals);
      ParsesTo(front, rules.decimals);
    }
  }

  lemma {:induction false} PrefixStaysEnterable(text: string, rules: Rules, n: nat)
    requires Enterable(text, rules) && n <= |text|
    ensures Enterable(text[..n], rules)
    decreases |text|
  {
    if n < |text| {
      DropLastStaysEnterable(text, rules);
      var front := text[..|text| - 1];
      PrefixStaysEnterable(front, rules, n);
      assert front[..n] == text[..n];
    } else {
      assert text[..n] == text;
    }
  }

  // ----- what a run of keys can enter

  lemma {:induction false} DigitSplits(editable: string, digit: DigitKey)
    requires editable == "" || Matches(editable)
    ensures var p := Split(editable);
            Split(editable + [digit])
            == if p.fraction.None? then p.(whole := p.whole + [digit])
               else p.(fraction := Some(p.fraction.value + [digit]))
  {
    var p := Split(editable);
    JoinSplits(editable);
    var longer := if p.fraction.None? then p.(whole := p.whole + [digit])
                  else p.(fraction := Some(p.fraction.value + [digit]));
    assert Join(longer) == editable + [digit];
    SplitJoins(longer);
  }

  lemma {:induction false} DotSplits(editable: string)
    requires Split(editable).fraction.None?
    ensures Split(editable + ".") == Parts(editable, Some(""))
  {
    JoinSplits(editable);
    assert editable + "." == Join(Parts(editable, Some("")));
    SplitJoins(Parts(editable, Some("")));
  }

  lemma {:induction false} DotInSplit(s: string)
    ensures '.' in s <==> Split(s).fraction.Some?
  {
    JoinSplits(s);
    var p := Split(s);
    if p.fraction.Some? {
      assert Join(p)[|p.whole|] == '.';
    } else {
      assert s == p.whole;
    }
  }

  /** A digit where there is room for it. */
  lemma {:induction false} DigitKeepsShape(current: string, digit: DigitKey, rules: Rules)
    requires Shaped(current, rules)
    requires var parts := Split(current);
             if parts.fraction.Some? then |parts.fraction.value| < rules.decimals else |parts.whole| < MAX_WHOLE_DIGITS
    ensures Shaped([digit], rules)
    ensures current != "0" ==> Shaped(current + [digit], rules)
  {
    DigitSplits(current, digit);
    DigitSplits("", digit);
    assert "" + [digit] == [digit];
    JoinSplits(current);
  }

  lemma DigitStaysEnterable(current: string, digit: DigitKey, rules: Rules)
    requires Enterable(current, rules)
    ensures Enterable(Reduce(current, Digit(digit), rules).amount, rules)
  {
    var parts := Split(current);
    if if parts.fraction.Some? then |parts.fraction.value| < rules.decimals else |parts.whole| < MAX_WHOLE_DIGITS {
      DigitKeepsShape(current, digit, rules);
    }
  }

  lemma KeyStaysEnterable(current: string, key: Key, rules: Rules)
    requires Enterable(current, rules)
    ensures Enterable(Reduce(current, key, rules).amount, rules)
  {
    match key
    case Delete =>
      if current != "" {
        DropLastStaysEnterable(current, rules);
      }
    case Dot =>
      DotInSplit(current);
      if current == "" {
        ZeroDotIsEnterable(rules);
      } else if rules.decimals > 0 && '.' !in current {
        DotStaysEnterable(current, rules);
      }
    case Digit(digit) => DigitStaysEnterable(current, digit, rules);
  }

  lemma {:induction false} DotStaysEnterable(current: string, rules: Rules)
    requires Enterable(current, rules) && current != "" && Split(current).fraction.None? && rules.decimals > 0
    ensures Enterable(current + ".", rules)
  {
    DotKeepsShape(current, rules);
    DotKeepsAmount(current, rules.decimals);
  }

  lemma {:induction false} DotKeepsShape(current: string, rules: Rules)
    requires Shaped(current, rules) && current != "" && Split(current).fraction.None? && rules.decimals > 0
    ensures Shaped(current + ".", rules)
  {
    DotSplits(current);
    JoinSplits(current);
  }

  lemma {:induction false} DotKeepsAmount(current: string, decimals: nat)
    requires Matches(current) && Split(current).fraction.None?
    ensures Parse(current + ".", decimals) == Parse(current, decimals)
  {
    DotSplits(current);
    JoinSplits(current);
    assert Split(current) == Parts(current, None);
    DotAddsNothing(current, decimals);
    ParsesTo(current, decimals);
    ParsesTo(current + ".", decimals);
  }

  lemma DotAddsNothing(whole: string, decimals: nat)
    requires Canonical(whole)
    ensures ValueOf(Parts(whole, Some("")), decimals) == ValueOf(Parts(whole, None), decimals)
  {
  }

  lemma ZeroDotIsEnterable(rules: Rules)
    ensures rules.decimals > 0 ==> Enterable("0.", rules)
  {
    ZeroDotIsNothing(rules.decimals);
    ParsesTo("0.", rules.decimals);
  }

  lemma ZeroDotIsNothing(decimals: nat)
    ensures Split("0.") == Parts("0", Some("")) && Canonical("0") && ValueOf(Parts("0", Some("")), decimals) == 0
  {
    DotSplits("0");
    assert "0" + "." == "0.";
    assert "0"[..0] == "";
    assert PadEnd("", decimals) == Zeros(decimals);
    ValueOfZeros(decimals);
    assert Value("0") == 0;
  }

  /** Whatever is tapped, the entry stays a well-formed amount at or under the maximum, its fraction
      within the precision and its whole part within nine digits. */
  lemma {:induction false} AnyKeysStayEnterable(keys: seq<Key>, rules: Rules)
    ensures Enterable(Typed(keys, rules), rules)
  {
    if keys != [] {
      AnyKeysStayEnterable(keys[..|keys| - 1], rules);
      KeyStaysEnterable(Typed(keys[..|keys| - 1], rules), keys[|keys| - 1], rules);
    }
  }

  // ----- which keys are taken

  /** What a key would make of a text, were there no limits. */
  function Next(text: string, key: Key): string {
    match key
    case Delete => if text == "" then "" else text[..|text| - 1]
    case Dot => if text == "" then "0." else text + "."
    case Digit(digit) => if text == "" || text == "0" then [digit] else text + [digit]
  }

  lemma DeleteTakes(text: string, rules: Rules)
    requires Enterable(text, rules)
    ensures Reduce(text, Delete, rules) == Entry(Next(text, Delete), false)
  {
  }

  lemma DotIsTakenIff(text: string, rules: Rules)
    requires Enterable(text, rules)
    ensures Reduce(text, Dot, rules)
            == Entry(if Enterable(Next(text, Dot), rules) then Next(text, Dot) else text, false)
  {
    DotInSplit(text);
    if text == "" {
      ZeroDotIsEnterable(rules);
      ZeroDotIsNothing(rules.decimals);
    } else if '.' !in text {
      DotSplits(text);
      if rules.decimals > 0 {
        DotStaysEnterable(text, rules);
      }
    } else {
      SecondDot(text);
    }
  }

  lemma SecondDot(text: string)
    requires '.' in text
    ensures !Matches(text + ".")
  {
    DotInSplit(text);
    JoinSplits(text);
    var p := Split(text);
    var longer := p.(fraction := Some(p.fraction.value + "."));
    assert Join(longer) == text + ".";
    SplitJoins(longer);
    assert longer.fraction.value[|p.fraction.value|] == '.';
  }

  lemma {:induction false} NextDigit(text: string, digit: DigitKey, rules: Rules)
    requires Enterable(text, rules)
    ensures var next, p := Next(text, Digit(digit)), Split(text);
            && Matches(next)
            && Split(next) == if p.fraction.Some? then p.(fraction := Some(p.fraction.value + [digit]))
                              else if text == "0" then Parts([digit], None) else p.(whole := p.whole + [digit])
  {
    DigitSplits(text, digit);
    DigitSplits("", digit);
    assert "" + [digit] == [digit];
    JoinSplits(text);
  }

  lemma {:induction false} LongFractionIsNoAmount(text: string, rules: Rules)
    requires Matches(text) && |FractionOf(Split(text))| > rules.decimals
    ensures !Exceeds(text, rules)
  {
    MatchesNeedsNoTrim(text);
  }

  lemma DigitIsTakenIff(text: string, digit: DigitKey, rules: Rules)
    requires Enterable(text, rules)
    ensures var next := Next(text, Digit(digit));
            Reduce(text, Digit(digit), rules)
            == Entry(if Enterable(next, rules) then next else text, Exceeds(next, rules))
  {
    var parts := Split(text);
    NextDigit(text, digit, rules);
    if parts.fraction.Some? && |parts.fraction.value| >= rules.decimals {
      LongFractionIsNoAmount(Next(text, Digit(digit)), rules);
    } else if parts.fraction.Some? || |parts.whole| < 9 {
      DigitKeepsShape(text, digit, rules);
    }
  }

  /** A key is taken exactly when what it makes of the entry is inside every limit, and otherwise the entry
      stands; a delete is always taken; and the maximum is reported exactly when a digit would go past it.
      An entry that is no amount counts as empty. */
  lemma KeyIsTakenIff(text: string, key: Key, rules: Rules)
    requires Enterable(text, rules)
    ensures var next, e := Next(text, key), Reduce(text, key, rules);
            && e.amount == (if key.Delete? || Enterable(next, rules) then next else text)
            && (e.hitMaximum <==> key.Digit? && Exceeds(next, rules))
    ensures forall other: string | other != "" && !Matches(other) :: Reduce(other, key, rules) == Reduce("", key, rules)
  {
    match key
    case Delete => DeleteTakes(text, rules);
    case Dot => DotIsTakenIff(text, rules);
    case Digit(digit) => DigitIsTakenIff(text, digit, rules);
  }

  /** So a delete undoes the key before it, but for the zero a digit stood in for and the zero a dot put
      before itself. */
  lemma DeleteUndoes(text: string, key: Key, rules: Rules)
    requires Enterable(text, rules) && !key.Delete? && Reduce(text, key, rules).amount != text
    ensures Reduce(Reduce(text, key, rules).amount, Delete, rules).amount
            == if text == "" && key.Dot? then "0" else if text == "0" && key.Digit? then "" else text
  {
    KeyIsTakenIff(text, key, rules);
    KeyStaysEnterable(text, key, rules);
    var next := Reduce(text, key, rules).amount;
    KeyIsTakenIff(next, Delete, rules);
    assert text != "" ==> (text + ".")[..|text|] == text;
    assert key.Digit? && text != "" ==> (text + [key.digit])[..|text|] == text;
  }

  // ----- every amount can be entered

  predicate IsKey(c: char) {
    c == '.' || IsDigit(c)
  }

  function KeyOf(c: char): Key
    requires IsKey(c)
  {
    if c == '.' then Dot else Digit(c)
  }

  lemma MatchedIsKeys(text: string)
    requires Matches(text)
    ensures forall i | 0 <= i < |text| :: IsKey(text[i])
  {
    JoinSplits(text);
  }

  function KeysOf(text: string): seq<Key>
    requires forall i | 0 <= i < |text| :: IsKey(text[i])
  {
    seq(|text|, i requires 0 <= i < |text| => KeyOf(text[i]))
  }

  lemma DotEnters(text: string, rules: Rules)
    requires Shaped(text, rules) && text != "" && text[|text| - 1] == '.'
    ensures Reduce(text[..|text| - 1], Dot, rules) == Entry(text, false)
  {
    DotComesOff(text);
    var front := Parts(text[..|text| - 1], None);
    assert Join(front) == text[..|text| - 1];
    SplitJoins(front);
    DotTyped(text[..|text| - 1], rules);
    assert text[..|text| - 1] + "." == text;
  }

  lemma DotTyped(front: string, rules: Rules)
    requires Matches(front) && front != "" && '.' !in front && rules.decimals > 0
    ensures Reduce(front, Dot, rules) == Entry(front + ".", false)
  {
  }

  lemma DigitEnters(text: string, rules: Rules)
    requires Enterable(text, rules) && text != "" && IsDigit(text[|text| - 1])
    ensures Reduce(text[..|text| - 1], Digit(text[|text| - 1]), rules) == Entry(text, false)
  {
    DropLastStaysEnterable(text, rules);
    FrontSplits(text);
    DigitTyped(text, text[..|text| - 1], rules);
  }

  lemma {:induction false} FrontSplits(text: string)
    requires Matches(text) && text != ""
    ensures Split(text[..|text| - 1]) == Shorter(Split(text))
  {
    JoinSplits(text);
    ShorterIsDropLast(Split(text));
  }

  /** One more character of an enterable text, tapped on what came before it, is entered. */
  lemma NextKeyEnters(text: string, rules: Rules)
    requires Enterable(text, rules) && text != ""
    requires IsKey(text[|text| - 1])
    ensures Reduce(text[..|text| - 1], KeyOf(text[|text| - 1]), rules) == Entry(text, false)
  {
    if text[|text| - 1] == '.' {
      DotEnters(text, rules);
    } else {
      DigitEnters(text, rules);
    }
  }

  /** A well-formed text that ends in its dot is that dot after a whole part. */
  lemma {:induction false} DotComesOff(text: string)
    requires Matches(text) && text != "" && text[|text| - 1] == '.'
    ensures Split(text).fraction == Some("")
    ensures text[..|text| - 1] == Split(text).whole && '.' !in text[..|text| - 1] && text[..|text| - 1] != ""
  {
    JoinSplits(text);
  }

  lemma {:induction false} DigitTyped(text: string, front: string, rules: Rules)
    requires Enterable(text, rules) && text != "" && front == text[..|text| - 1] && IsDigit(text[|text| - 1])
    requires Split(front) == Shorter(Split(text)) && (front == "" || Matches(front))
    ensures Reduce(front, Digit(text[|text| - 1]), rules) == Entry(text, false)
  {
    DigitExtends(text, front, rules);
    DigitHasRoom(front, text[|text| - 1], rules);
    LastJoins(text);
    EnterableIsUnder(text, rules);
  }

  lemma LastJoins(text: string)
    requires text != ""
    ensures var front, last := text[..|text| - 1], text[|text| - 1];
            text == if front == "" then [last] else front + [last]
  {
  }

  lemma EnterableIsUnder(text: string, rules: Rules)
    requires Enterable(text, rules) && text != ""
    ensures !Exceeds(text, rules)
  {
  }

  lemma {:induction false} DigitHasRoom(front: string, digit: DigitKey, rules: Rules)
    requires front == "" || Matches(front)
    requires var parts := Split(front);
             if parts.fraction.Some? then |parts.fraction.value| < rules.decimals
             else front != "0" && |parts.whole| < MAX_WHOLE_DIGITS
    ensures var next := if front == "" then [digit] else front + [digit];
            Reduce(front, Digit(digit), rules)
            == if Exceeds(next, rules) then Entry(front, true) else Entry(next, false)
  {
    assert front == "0" ==> Split(front).fraction.None? by { DotInSplit(front); }
  }

  /** A text that ends in a digit leaves room for it: its front is not a lone zero, and is short of the
      precision or of nine whole digits. */
  lemma {:induction false} DigitExtends(text: string, front: string, rules: Rules)
    requires Shaped(text, rules) && text != "" && front == text[..|text| - 1] && IsDigit(text[|text| - 1])
    requires Split(front) == Shorter(Split(text))
    ensures var parts := Split(front);
            if parts.fraction.Some? then |parts.fraction.value| < rules.decimals
            else front != "0" && |parts.whole| < MAX_WHOLE_DIGITS
  {
    JoinSplits(text);
    JoinSplits(front);
    assert front != "" ==> front[0] == text[0];
  }

  lemma {:induction false} PrefixIsTyped(text: string, rules: Rules, n: nat)
    requires Enterable(text, rules) && n <= |text|
    requires forall i | 0 <= i < |text| :: IsKey(text[i])
    ensures Typed(KeysOf(text)[..n], rules) == text[..n]
  {
    if n > 0 {
      PrefixIsTyped(text, rules, n - 1);
      PrefixStaysEnterable(text, rules, n);
      NextKeyEnters(text[..n], rules);
      assert KeysOf(text)[..n][..n - 1] == KeysOf(text)[..n - 1];
      assert text[..n][..n - 1] == text[..n - 1];
    }
  }

  lemma TextIsEnterable(baseUnits: nat, rules: Rules)
    requires Parse(rules.maximum, rules.decimals).Some? ==> baseUnits <= Parse(rules.maximum, rules.decimals).value
    requires |Split(Text(baseUnits, rules.decimals)).whole| <= MAX_WHOLE_DIGITS
    ensures Enterable(Text(baseUnits, rules.decimals), rules)
    ensures forall i | 0 <= i < |Text(baseUnits, rules.decimals)| :: IsKey(Text(baseUnits, rules.decimals)[i])
  {
    var p := TextParts(baseUnits, rules.decimals);
    SplitJoins(p);
    ParseOfFormat(baseUnits, rules.decimals);
    MatchedIsKeys(Text(baseUnits, rules.decimals));
  }

  /** Any amount inside the limits can be tapped in: the keys of its canonical text, from the empty
      entry, produce exactly that text, and no tap on the way reports the maximum. */
  lemma {:induction false} EveryAmountCanBeTyped(baseUnits: nat, rules: Rules)
    requires Parse(rules.maximum, rules.decimals).Some? ==> baseUnits <= Parse(rules.maximum, rules.decimals).value
    requires |Split(Text(baseUnits, rules.decimals)).whole| <= MAX_WHOLE_DIGITS
    ensures var text := Text(baseUnits, rules.decimals);
            && (forall i | 0 <= i < |text| :: IsKey(text[i]))
            && Typed(KeysOf(text), rules) == text
            && (forall n | 0 <= n < |text| ::
                  Reduce(Typed(KeysOf(text)[..n], rules), KeysOf(text)[n], rules) == Entry(text[..n + 1], false))
  {
    var text := Text(baseUnits, rules.decimals);
    TextIsEnterable(baseUnits, rules);
    forall n | 0 <= n < |text|
      ensures Reduce(Typed(KeysOf(text)[..n], rules), KeysOf(text)[n], rules) == Entry(text[..n + 1], false)
    {
      PrefixIsTyped(text, rules, n);
      PrefixStaysEnterable(text, rules, n + 1);
      NextKeyEnters(text[..n + 1], rules);
      assert text[..n + 1][..n] == text[..n];
    }
    PrefixIsTyped(text, rules, |text|);
    assert KeysOf(text)[..|text|] == KeysOf(text);
    assert text[..|text|] == text;
  }
}
