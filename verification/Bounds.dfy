/**
 A provider's limit turned into whole CASH, the easiest of several routes' limits, and the least CASH
 that reaches a source's floor.
 */
module Bounds {
  import opened Rounding
  import opened Wrappers

  /** Base units in one CASH. */
  const UNIT: nat := 1_000_000

  datatype Side = Minimum | Maximum

  /** A refusal by a method's limits: the limit and the cost of the amount asked for, in cents. */
  datatype OutOfRange = OutOfRange(bound: Side, limitCents: int, costCents: int)

  function Whole(e: OutOfRange, amount: nat): (whole: nat)
    requires e.limitCents > 0 && e.costCents > 0
  {
    var scaled, price := amount * e.limitCents, e.costCents * UNIT;
    if e.bound == Minimum then (scaled + price - 1) / price else scaled / price
  }

  function BoundCash(e: OutOfRange, amount: Option<nat>): Option<nat> {
    if amount.None? || e.limitCents <= 0 || e.costCents <= 0 then None
    else
      var whole := Whole(e, amount.value);
      if whole > 0 then Some(whole * UNIT) else None
  }

  /** At the price the rail solved for `amount`, `cash` lies inside the limit. */
  predicate Inside(e: OutOfRange, amount: nat, cash: nat) {
    if e.bound == Minimum then cash * e.costCents >= amount * e.limitCents
    else cash * e.costCents <= amount * e.limitCents
  }

  lemma Scaled(whole: nat, costCents: int)
    ensures whole * UNIT * costCents == whole * (costCents * UNIT)
  {
  }

  lemma WholeInsideIff(e: OutOfRange, amount: nat, whole: nat)
    requires e.limitCents > 0 && e.costCents > 0
    ensures Inside(e, amount, whole * UNIT) <==>
              if e.bound == Minimum then whole >= Whole(e, amount) else whole <= Whole(e, amount)
  {
    var scaled, price := amount * e.limitCents, e.costCents * UNIT;
    Scaled(whole, e.costCents);
    if e.bound == Minimum {
      CeilingIsLeast(scaled, price, whole);
    } else {
      FloorIsGreatest(scaled, price, whole);
    }
  }

  lemma NothingFitsIff(e: OutOfRange, amount: nat)
    requires e.limitCents > 0 && e.costCents > 0
    ensures Whole(e, amount) == 0 <==> if e.bound == Minimum then amount == 0 else !Inside(e, amount, UNIT)
  {
    WholeInsideIff(e, amount, 1);
    WholeInsideIff(e, amount, 0);
    if e.bound == Minimum && amount > 0 {
      assert amount * e.limitCents > 0;
    }
  }

  /** The figure is the tightest whole CASH: a whole CASH is inside the limit exactly from the figure
      on, or up to it. There is none exactly when the limit or the cost cannot be read, nothing was
      asked for, or not even one CASH is under a maximum. */
  lemma BoundIsTight(e: OutOfRange, amount: nat, whole: nat)
    ensures var figure := BoundCash(e, Some(amount));
            && (figure.Some? ==>
                  && figure.value % 1_000_000 == 0 && Inside(e, amount, figure.value)
                  && (Inside(e, amount, whole * 1_000_000) <==>
                        if e.bound == Minimum then whole * 1_000_000 >= figure.value
                        else whole * 1_000_000 <= figure.value))
            && (figure.None? <==>
                  || e.limitCents <= 0 || e.costCents <= 0
                  || if e.bound == Minimum then amount == 0 else !Inside(e, amount, 1_000_000))
    ensures BoundCash(e, None) == None
  {
    if e.limitCents > 0 && e.costCents > 0 {
      WholeInsideIff(e, amount, whole);
      WholeInsideIff(e, amount, Whole(e, amount));
      NothingFitsIff(e, amount);
    }
  }

  function Distance(e: OutOfRange, amount: Option<nat>): Option<nat> {
    var cash, asked := BoundCash(e, amount), if amount.Some? then amount.value else 0;
    match cash
    case None => None
    case Some(c) => Some(if c > asked then c - asked else asked - c)
  }

  /** `a` is easier to reach than `b`. */
  predicate Nearer(a: Option<nat>, b: Option<nat>) {
    a.Some? && (b.None? || a.value < b.value)
  }

  function Abs(n: int): nat {
    if n < 0 then -n else n
  }

  /** Error `a` is as easy to reach as `b`: it has a figure wherever `b` has one, no further from what was
      asked for. */
  predicate AsNear(a: OutOfRange, b: OutOfRange, amount: Option<nat>) {
    amount.Some? && BoundCash(b, amount).Some? ==>
      && BoundCash(a, amount).Some?
      && Abs(BoundCash(a, amount).value - amount.value) <= Abs(BoundCash(b, amount).value - amount.value)
  }

  lemma AsNearIff(a: OutOfRange, b: OutOfRange, amount: Option<nat>)
    ensures AsNear(a, b, amount) <==> !Nearer(Distance(b, amount), Distance(a, amount))
  {
  }

  /** The first of the errors that are as near as every other. */
  method NearestOutOfRange(errors: seq<OutOfRange>, amount: Option<nat>) returns (nearest: Option<nat>)
    ensures nearest.None? <==> errors == []
    ensures nearest.Some? ==> nearest.value < |errors|
    ensures nearest.Some? ==> forall i | 0 <= i < |errors| :: AsNear(errors[nearest.value], errors[i], amount)
    ensures nearest.Some? ==> forall i | 0 <= i < nearest.value :: !AsNear(errors[i], errors[nearest.value], amount)
  {
    nearest := None;
    var nearestDistance: Option<nat> := None;
    for i := 0 to |errors|
      invariant nearest.None? <==> i == 0
      invariant nearest.Some? ==> nearest.value < i && nearestDistance == Distance(errors[nearest.value], amount)
      invariant nearest.Some? ==> forall j | 0 <= j < i :: !Nearer(Distance(errors[j], amount), nearestDistance)
      invariant nearest.Some? ==>
                  forall j | 0 <= j < nearest.value :: Nearer(nearestDistance, Distance(errors[j], amount))
    {
      var distance := Distance(errors[i], amount);
      if nearest.None? || Nearer(distance, nearestDistance) {
        nearest := Some(i);
        nearestDistance := distance;
      }
    }
    if nearest.Some? {
      forall i | 0 <= i < |errors| ensures AsNear(errors[nearest.value], errors[i], amount) {
        AsNearIff(errors[nearest.value], errors[i], amount);
      }
      forall i | 0 <= i < nearest.value ensures !AsNear(errors[i], errors[nearest.value], amount) {
        AsNearIff(errors[i], errors[nearest.value], amount);
      }
    }
  }

  // ----- a source's floor

  const BPS: nat := 10_000
  /** What the worst fill must still deliver over the target. */
  const MARGIN_BPS: nat := 25

  /** The least a source swaps, what that buys, and the tolerance its channel asks for, in basis points;
      `egress` is never 0 for a floor that was learned. */
  datatype Floor = Floor(source: nat, egress: nat, tolerance: nat)

  datatype Offer = Available(send: nat) | TooSmall(minimumCash: Option<nat>)

  /** A tolerance of everything accepts any fill. */
  datatype Refusal = AnyFill

  /** What buys the target at the floor's rate. */
  function Exact(floor: Floor, target: nat): nat
    requires floor.egress > 0
  {
    (target * floor.source + floor.egress - 1) / floor.egress
  }

  /** `withSourceBuffer` */
  function Buffered(amount: nat, tolerance: nat): Result<nat, Refusal> {
    if tolerance >= BPS then Err(AnyFill)
    else Ok((amount * (BPS + MARGIN_BPS) + (BPS - tolerance) - 1) / (BPS - tolerance))
  }

  function Judged(floor: Floor, target: nat, amount: Option<nat>): Result<Offer, Refusal>
    requires floor.egress > 0
  {
    var send := Buffered(Exact(floor, target), floor.tolerance);
    if send.Err? then Err(send.error)
    else if target >= floor.egress then Ok(Available(send.value))
    else if amount.None? || target == 0 then Ok(TooSmall(None))
    else Ok(TooSmall(Some(MinimumCash(floor, target, amount.value))))
  }

  lemma ExactIsLeast(floor: Floor, target: nat, n: nat)
    requires floor.egress > 0
    ensures n * floor.egress >= target * floor.source <==> n >= Exact(floor, target)
  {
    CeilingIsLeast(target * floor.source, floor.egress, n);
  }

  lemma BufferedIsLeast(amount: nat, tolerance: nat, n: nat)
    requires tolerance < BPS
    ensures n * (BPS - tolerance) >= amount * (BPS + MARGIN_BPS) <==> n >= Buffered(amount, tolerance).value
  {
    CeilingIsLeast(amount * (BPS + MARGIN_BPS), BPS - tolerance, n);
  }

  lemma FactorKeeps(a: nat, b: nat, c: nat)
    requires a <= b
    ensures a * c <= b * c
  {
  }

  /** The worst fill of what is sent, at the floor's rate, still buys the target with the margin over it. */
  lemma WorstFillCovers(floor: Floor, target: nat)
    requires floor.egress > 0 && floor.tolerance < BPS
    ensures Buffered(Exact(floor, target), floor.tolerance).value * (10_000 - floor.tolerance) * floor.egress
            >= target * floor.source * 10_025
  {
    var exact := Exact(floor, target);
    var send := Buffered(exact, floor.tolerance).value;
    ExactIsLeast(floor, target, exact);
    BufferedIsLeast(exact, floor.tolerance, send);
    FactorKeeps(exact * (BPS + MARGIN_BPS), send * (BPS - floor.tolerance), floor.egress);
    FactorKeeps(target * floor.source, exact * floor.egress, BPS + MARGIN_BPS);
    Reordered(exact, BPS + MARGIN_BPS, floor.egress);
  }

  lemma Reordered(a: nat, b: nat, c: nat)
    ensures a * b * c == a * c * b
  {
  }

  lemma LessTimes(a: nat, b: nat, c: nat)
    requires a > 0 && b < c
    ensures a * b < a * c
  {
  }

  function MinimumCash(floor: Floor, target: nat, amount: nat): nat
    requires target > 0
  {
    (amount * floor.egress + target - 1) / target
  }

  lemma MinimumIsLeast(floor: Floor, target: nat, amount: nat, n: nat)
    requires target > 0
    ensures n * target >= amount * floor.egress <==> n >= MinimumCash(floor, target, amount)
  {
    CeilingIsLeast(amount * floor.egress, target, n);
  }

  lemma MinimumIsMore(floor: Floor, target: nat, amount: nat)
    requires 0 < target < floor.egress && amount > 0
    ensures MinimumCash(floor, target, amount) > amount
  {
    LessTimes(amount, target, floor.egress);
    MinimumIsLeast(floor, target, amount, amount);
  }

  /** A token is offered exactly when the target reaches its floor, and then what is sent is the least of
      the source that, at the floor's rate, buys the target, raised to the least whose worst fill covers
      that with the margin. Under the floor, the figure shown is the least CASH that buys it at the rate
      of the amount asked for, and more than that amount. A tolerance of everything is refused. */
  lemma JudgedIsLeast(floor: Floor, target: nat, amount: nat, n: nat)
    requires floor.egress > 0
    ensures var r := Judged(floor, target, Some(amount));
            && (r.Err? <==> floor.tolerance >= 10_000)
            && (r.Ok? ==>
                  && (r.value.Available? <==> target >= floor.egress)
                  && (r.value.Available? ==>
                        (n * (10_000 - floor.tolerance) >= Exact(floor, target) * 10_025 <==> n >= r.value.send))
                  && (n * floor.egress >= target * floor.source <==> n >= Exact(floor, target))
                  && (r.value == TooSmall(None) <==> target == 0)
                  && (r.value.TooSmall? && target > 0 ==>
                        && (n * target >= amount * floor.egress <==> n >= r.value.minimumCash.value)
                        && (amount > 0 ==> r.value.minimumCash.value > amount)))
    ensures floor.tolerance < 10_000 && target < floor.egress ==> Judged(floor, target, None) == Ok(TooSmall(None))
  {
    ExactIsLeast(floor, target, n);
    if floor.tolerance < BPS {
      BufferedIsLeast(Exact(floor, target), floor.tolerance, n);
    }
    if 0 < target < floor.egress {
      MinimumIsLeast(floor, target, amount, n);
      if amount > 0 {
        MinimumIsMore(floor, target, amount);
      }
    }
  }
}
