/**
 How many commands the server takes off its queue at a time (libs/server/server-load.c): a feedback law on
 the load, carried from call to call. Arithmetic is over the reals; `exp` is any function that is positive, strictly
 increasing, and 1 at zero.
 */
module LoadControl {
  const FLOOR: nat := 5
  const CENTER: real := 0.25
  const MAX_COMMANDS := 8192
  const UNSIGNED := 0x1_0000_0000

  /** A floating-point value; a division of zero by zero has no number. */
  datatype Float = Number(value: real) | NaN

  predicate IsPositive(exp: real -> real, x: real) {
    exp(x) > 0.0
  }

  predicate Grows(exp: real -> real, x: real, y: real) {
    x < y ==> exp(x) < exp(y)
  }

  ghost predicate ExpLike(exp: real -> real) {
    && exp(0.0) == 1.0
    && (forall x {:trigger IsPositive(exp, x)} :: IsPositive(exp, x))
    && (forall x, y {:trigger Grows(exp, x, y)} :: Grows(exp, x, y))
  }

  lemma ExpAt(exp: real -> real, x: real, y: real)
    requires ExpLike(exp)
    ensures exp(0.0) == 1.0 && exp(x) > 0.0 && exp(y) > 0.0
    ensures x < y ==> exp(x) < exp(y)
  {
    assert IsPositive(exp, x) && IsPositive(exp, y) && Grows(exp, x, y);
  }

  function Abs(x: real): real {
    if x < 0.0 then -x else x
  }

  function Min(a: nat, b: nat): nat {
    if a < b then a else b
  }

  function Total(s: seq<nat>): nat {
    if s == [] then 0 else Total(s[..|s| - 1]) + s[|s| - 1]
  }

  /** `PARAM_MAX_COMMANDS` less the load, in unsigned arithmetic. */
  function Headroom(load: nat): nat {
    (MAX_COMMANDS - load) % UNSIGNED
  }

  /** The load stays on the one value whose headroom is zero. */
  predicate Stuck(load: nat, lastLoad: nat) {
    Headroom(load) == 0 && load == lastLoad
  }

  lemma MulNonNegative(x: real, y: real)
    requires x >= 0.0 && y >= 0.0
    ensures x * y >= 0.0
  {
  }

  lemma QuotientNonNegative(x: real, y: real)
    requires x >= 0.0 && y > 0.0
    ensures x / y >= 0.0
  {
  }

  function Times(a: real, b: real): real {
    a * b
  }

  function Over(a: real, b: real): real
    requires b != 0.0
  {
    a / b
  }

  function Mixed(a: real, b: real, ratio: real): real {
    Times(a, 1.0 - ratio) + Times(ratio, b)
  }

  // ---------------------------------------------------------------- the law

  /** The change of the load against what was taken; time lessens it, if more than one was. */
  function Pull(exp: real -> real, moved: real, taken: nat, time: real): real {
    if taken != 0 then Times(exp(Over(time, taken as real) - time), Over(moved, taken as real)) else moved
  }

  /** How far a load has moved, from none towards 1. */
  function Swing(exp: real -> real, moved: real, taken: nat, time: real, headroom: nat): real
    requires headroom > 0
  {
    1.0 - exp(-Times(Pull(exp, moved, taken, time), Over(MAX_COMMANDS as real, headroom as real)))
  }

  /** From -1 (falling fast) to 1 (rising fast); without headroom a quotient is infinite. */
  function Eta(exp: real -> real, total: nat, last: nat, taken: nat, time: real): Float {
    var sign := if total < last then -1.0 else 1.0;
    if Headroom(total) == 0 then (if total == last then NaN else Number(sign))
    else Number(Times(sign, Swing(exp, Abs((total - last) as real), taken, time, Headroom(total))))
  }

  /** The wanted fraction, weighted against the last one by the time that has passed. */
  function Blended(exp: real -> real, last: Float, eta: Float, time: real): Float {
    if eta.NaN? || last.NaN? then NaN
    else
      var wanted := Wanted(eta.value);
      Number(Mixed(wanted, last.value, exp(Times(-time, Abs(wanted)))))
  }

  lemma MulGrows(a: real, x: real, y: real)
    requires a > 0.0 && x < y
    ensures a * x < a * y
  {
  }

  lemma DivShrinks(a: real, x: real, y: real)
    requires a > 0.0 && 0.0 < x < y
    ensures 0.0 < a / y < a / x
  {
    var p, q := a / x, a / y;
    assert p * x == a && q * y == a && q > 0.0;
    MulGrows(q, x, y);
    if q > p {
      MulGrows(x, p, q);
    }
    assert p != q;
  }

  lemma ProductPositive(a: real, b: real)
    requires a > 0.0 && b > 0.0
    ensures a * b > 0.0
  {
    MulGrows(a, 0.0, b);
  }

  lemma QuotientPositive(a: real, b: real)
    requires a > 0.0 && b > 0.0
    ensures a / b > 0.0
  {
    DivShrinks(a, b, b + 1.0);
  }

  lemma PullIsPositive(exp: real -> real, moved: real, taken: nat, time: real)
    requires ExpLike(exp) && moved >= 0.0
    ensures moved > 0.0 ==> Pull(exp, moved, taken, time) > 0.0
    ensures moved == 0.0 ==> Pull(exp, moved, taken, time) == 0.0
  {
    if taken != 0 {
      if moved > 0.0 {
        QuotientPositive(moved, taken as real);
        ExpAt(exp, time / taken as real - time, 0.0);
        ProductPositive(exp(time / taken as real - time), moved / taken as real);
      } else {
        assert moved / taken as real == 0.0;
      }
    }
  }

  lemma TimesGrow(a: real, x: real, y: real)
    requires a > 0.0 && x < y
    ensures Times(a, x) < Times(a, y) && Times(x, a) < Times(y, a)
  {
    MulGrows(a, x, y);
  }

  lemma OverShrinks(a: real, x: real, y: real)
    requires a > 0.0 && 0.0 < x < y
    ensures 0.0 < Over(a, y) < Over(a, x)
  {
    DivShrinks(a, x, y);
  }

  lemma ExponentCompares(exp: real -> real, a: real, b: real)
    requires ExpLike(exp) && a < b
    ensures 1.0 - exp(-a) < 1.0 - exp(-b)
  {
    ExpAt(exp, -b, -a);
  }

  lemma SwingCompares(exp: real -> real, x: real, y: real, scale: real)
    requires ExpLike(exp) && scale > 0.0 && x < y
    ensures 1.0 - exp(-Times(x, scale)) < 1.0 - exp(-Times(y, scale))
  {
    TimesGrow(scale, x, y);
    hide Times;
    ExponentCompares(exp, Times(x, scale), Times(y, scale));
  }

  lemma ScalePositive(headroom: nat)
    requires headroom > 0
    ensures Over(MAX_COMMANDS as real, headroom as real) > 0.0
  {
    QuotientPositive(MAX_COMMANDS as real, headroom as real);
  }

  /** A swing is none exactly if the load has not moved, and always below 1. */
  lemma SwingBounds(exp: real -> real, moved: real, taken: nat, time: real, headroom: nat)
    requires ExpLike(exp) && moved >= 0.0 && headroom > 0
    ensures 0.0 <= Swing(exp, moved, taken, time, headroom) < 1.0
    ensures Swing(exp, moved, taken, time, headroom) == 0.0 <==> moved == 0.0
  {
    var x, scale := Pull(exp, moved, taken, time), Over(MAX_COMMANDS as real, headroom as real);
    PullIsPositive(exp, moved, taken, time);
    ScalePositive(headroom);
    assert Times(0.0, scale) == 0.0;
    ExpAt(exp, -Times(x, scale), -Times(0.0, scale));
    hide Times, Pull, Over;
    if moved > 0.0 {
      SwingCompares(exp, 0.0, x, scale);
    }
  }

  lemma PullGrows(exp: real -> real, less: real, more: real, taken: nat, time: real)
    requires ExpLike(exp) && 0.0 <= less < more
    ensures Pull(exp, less, taken, time) < Pull(exp, more, taken, time)
  {
    if taken != 0 {
      var n, decay := taken as real, exp(time / taken as real - time);
      ExpAt(exp, time / taken as real - time, 0.0);
      QuotientGrows(n, less, more);
      MulGrows(decay, less / n, more / n);
    }
  }

  lemma QuotientGrows(n: real, x: real, y: real)
    requires n > 0.0 && x < y
    ensures x / n < y / n
  {
    var p, q := x / n, y / n;
    assert p * n == x && q * n == y;
    if q < p {
      MulGrows(n, q, p);
    }
  }

  /** The further the load has moved, the wider the swing. */
  lemma SwingGrows(exp: real -> real, less: real, more: real, taken: nat, time: real, headroom: nat)
    requires ExpLike(exp) && 0.0 <= less < more && headroom > 0
    ensures Swing(exp, less, taken, time, headroom) < Swing(exp, more, taken, time, headroom)
  {
    ScalePositive(headroom);
    PullGrows(exp, less, more, taken, time);
    hide Pull;
    var scale := Over(MAX_COMMANDS as real, headroom as real);
    SwingCompares(exp, Pull(exp, less, taken, time), Pull(exp, more, taken, time), scale);
  }

  /** The less headroom there is, the wider the swing. */
  lemma SwingNeedsHeadroom(exp: real -> real, moved: real, taken: nat, time: real, less: nat, more: nat)
    requires ExpLike(exp) && moved > 0.0 && 0 < less < more
    ensures Swing(exp, moved, taken, time, less) > Swing(exp, moved, taken, time, more)
  {
    var pull := Pull(exp, moved, taken, time);
    var near, far := Over(MAX_COMMANDS as real, less as real), Over(MAX_COMMANDS as real, more as real);
    PullIsPositive(exp, moved, taken, time);
    OverShrinks(MAX_COMMANDS as real, less as real, more as real);
    TimesGrow(pull, far, near);
    hide Times, Over, Pull;
    ExponentCompares(exp, Times(pull, far), Times(pull, near));
  }

  /** The more was taken, the narrower the swing: the change is in proportion, and time counts for more. */
  lemma SwingIsDamped(exp: real -> real, moved: real, less: nat, more: nat, time: real, headroom: nat)
    requires ExpLike(exp) && moved > 0.0 && 0 < less < more && time >= 0.0 && headroom > 0
    ensures Swing(exp, moved, less, time, headroom) > Swing(exp, moved, more, time, headroom)
  {
    PullIsDamped(exp, moved, less, more, time);
    ScalePositive(headroom);
    hide Pull, Times, Over;
    var scale := Over(MAX_COMMANDS as real, headroom as real);
    SwingCompares(exp, Pull(exp, moved, more, time), Pull(exp, moved, less, time), scale);
  }

  lemma PullIsDamped(exp: real -> real, moved: real, less: nat, more: nat, time: real)
    requires ExpLike(exp) && moved > 0.0 && 0 < less < more && time >= 0.0
    ensures Pull(exp, moved, less, time) > Pull(exp, moved, more, time)
  {
    var m, n := less as real, more as real;
    OverShrinks(moved, m, n);
    assert Over(time, n) <= Over(time, m) by {
      if time > 0.0 {
        OverShrinks(time, m, n);
      } else {
        assert time / m == 0.0 && time / n == 0.0;
      }
    }
    ExpAt(exp, Over(time, n) - time, Over(time, m) - time);
    var early, late := exp(Over(time, m) - time), exp(Over(time, n) - time);
    TimesGrow(late, Over(moved, n), Over(moved, m));
    if late < early {
      TimesGrow(Over(moved, m), late, early);
    }
    hide Times, Over;
    assert late <= early;
  }

  /** The more time has passed, the narrower the swing, if more than one command was taken. */
  lemma SwingFades(exp: real -> real, moved: real, taken: nat, sooner: real, later: real, headroom: nat)
    requires ExpLike(exp) && moved > 0.0 && taken > 1 && sooner < later && headroom > 0
    ensures Swing(exp, moved, taken, sooner, headroom) > Swing(exp, moved, taken, later, headroom)
  {
    var n := taken as real;
    DivShrinks(1.0, 1.0, n);
    MulGrows(1.0 - 1.0 / n, sooner, later);
    assert sooner / n == sooner * (1.0 / n) && later / n == later * (1.0 / n);
    assert later / n - later < sooner / n - sooner;
    QuotientPositive(moved, n);
    ExpAt(exp, later / n - later, sooner / n - sooner);
    MulGrows(moved / n, exp(later / n - later), exp(sooner / n - sooner));
    ScalePositive(headroom);
    var scale := Over(MAX_COMMANDS as real, headroom as real);
    SwingCompares(exp, Pull(exp, moved, taken, later), Pull(exp, moved, taken, sooner), scale);
  }

  /** The sign of the change, and how much it is; only without headroom does it go all the way. */
  lemma EtaBounds(exp: real -> real, total: nat, last: nat, taken: nat, time: real)
    requires ExpLike(exp)
    ensures var eta := Eta(exp, total, last, taken, time);
            && (eta.NaN? <==> Stuck(total, last))
            && (eta.Number? ==>
                  && -1.0 <= eta.value <= 1.0
                  && (eta.value > 0.0 <==> total > last || (total == last && Headroom(total) == 0))
                  && (eta.value < 0.0 <==> total < last)
                  && (Abs(eta.value) == 1.0 <==> Headroom(total) == 0))
  {
    if Headroom(total) != 0 {
      SwingBounds(exp, Abs((total - last) as real), taken, time, Headroom(total));
    }
  }

  /** The same change as a rise and as a fall swings as far to either side. */
  lemma EtaIsSwing(exp: real -> real, total: nat, last: nat, taken: nat, time: real)
    requires ExpLike(exp) && Headroom(total) != 0
    ensures var swing := Swing(exp, Abs((total - last) as real), taken, time, Headroom(total));
            Eta(exp, total, last, taken, time) == Number(if total >= last then swing else -swing)
  {
  }

  // ---------------------------------------------------------------- the fraction

  /** The wanted fraction: the center for a steady load, none of it or twice the center at the ends. */
  function Wanted(eta: real): real {
    CENTER + CENTER * eta
  }

  lemma Decay(exp: real -> real, wanted: real, time: real)
    requires ExpLike(exp) && wanted >= 0.0 && time >= 0.0
    ensures 0.0 < exp(Times(-time, wanted)) <= 1.0
    ensures exp(Times(-time, wanted)) == 1.0 <==> time == 0.0 || wanted == 0.0
  {
    if time == 0.0 || wanted == 0.0 {
      assert Times(-time, wanted) == 0.0;
    } else {
      ProductPositive(time, wanted);
      assert Times(-time, wanted) == -(time * wanted);
    }
    ExpAt(exp, Times(-time, wanted), 0.0);
    hide Times;
  }

  lemma MixedDistance(last: real, wanted: real, ratio: real)
    ensures Mixed(wanted, last, ratio) - wanted == Times(ratio, last - wanted)
  {
  }

  lemma Shrinks(ratio: real, gap: real)
    requires 0.0 < ratio <= 1.0
    ensures Times(ratio, gap) == gap <==> ratio == 1.0 || gap == 0.0
    ensures ratio < 1.0 && gap > 0.0 ==> 0.0 < Times(ratio, gap) < gap
    ensures ratio < 1.0 && gap < 0.0 ==> gap < Times(ratio, gap) < 0.0
    decreases gap < 0.0
  {
    if gap < 0.0 {
      assert Times(ratio, gap) == -Times(ratio, -gap);
      hide Times;
      Shrinks(ratio, -gap);
    } else if gap > 0.0 && ratio < 1.0 {
      ProductPositive(ratio, gap);
      MulGrows(gap, ratio, 1.0);
    }
  }

  /** The distance to the wanted fraction shrinks, in proportion. */
  lemma BlendedDistance(exp: real -> real, last: real, eta: real, time: real)
    requires ExpLike(exp) && -1.0 <= eta <= 1.0 && time >= 0.0
    ensures var wanted, next := 0.25 + 0.25 * eta, Blended(exp, Number(last), Number(eta), time).value;
            && next - wanted == Times(exp(Times(-time, wanted)), last - wanted)
            && (next == last <==> time == 0.0 || eta == -1.0 || last == wanted)
            && (time > 0.0 && eta > -1.0 && last < wanted ==> last < next < wanted)
            && (time > 0.0 && eta > -1.0 && last > wanted ==> wanted < next < last)
  {
    var wanted := 0.25 + 0.25 * eta;
    var ratio := exp(Times(-time, wanted));
    assert Wanted(eta) == wanted == Abs(wanted);
    Decay(exp, wanted, time);
    MixedDistance(last, wanted, ratio);
    Shrinks(ratio, last - wanted);
    hide Times, Mixed;
  }

  lemma TimesGrows(time: real, later: real, wanted: real)
    requires 0.0 <= time < later && wanted > 0.0
    ensures Times(-later, wanted) < Times(-time, wanted)
  {
    MulGrows(wanted, time, later);
  }

  lemma Closer(a: real, b: real, gap: real)
    requires 0.0 < a < b && gap != 0.0
    ensures Abs(Times(a, gap)) < Abs(Times(b, gap))
  {
    if gap > 0.0 {
      MulGrows(gap, a, b);
      ProductPositive(a, gap);
    } else {
      MulGrows(-gap, a, b);
      ProductPositive(a, -gap);
      assert a * gap == -(a * -gap) && b * gap == -(b * -gap);
    }
  }

  /** The later, the closer. */
  lemma BlendedCloser(exp: real -> real, last: real, eta: real, sooner: real, later: real)
    requires ExpLike(exp) && -1.0 < eta <= 1.0 && 0.0 <= sooner < later && last != 0.25 + 0.25 * eta
    ensures var wanted := 0.25 + 0.25 * eta;
            Abs(Blended(exp, Number(last), Number(eta), later).value - wanted)
            < Abs(Blended(exp, Number(last), Number(eta), sooner).value - wanted)
  {
    var wanted := 0.25 + 0.25 * eta;
    BlendedDistance(exp, last, eta, sooner);
    BlendedDistance(exp, last, eta, later);
    TimesGrows(sooner, later, wanted);
    hide Times, Blended;
    ExpAt(exp, Times(-later, wanted), Times(-sooner, wanted));
    Closer(exp(Times(-later, wanted)), exp(Times(-sooner, wanted)), last - wanted);
  }

  /** A steady fraction stays within its bounds, and with no time passed as it is. */
  lemma BlendedFacts(exp: real -> real, last: Float, eta: Float, time: real)
    requires ExpLike(exp) && (eta.Number? ==> -1.0 <= eta.value <= 1.0)
    ensures Blended(exp, last, eta, time).NaN? <==> eta.NaN? || last.NaN?
    ensures eta.Number? && last.Number? && 0.0 <= last.value <= 2.0 * CENTER && time >= 0.0 ==>
              0.0 <= Blended(exp, last, eta, time).value <= 2.0 * CENTER
    ensures eta.Number? && time == 0.0 ==> Blended(exp, last, eta, time) == last
    ensures eta.Number? && last.Number? && time >= 0.0 && eta.value >= 0.0 && last.value <= CENTER ==>
              var next := Blended(exp, last, eta, time).value;
              next >= last.value && (eta.value > 0.0 && time > 0.0 ==> next > last.value)
    ensures eta.Number? && last.Number? && time >= 0.0 && eta.value <= 0.0 && last.value >= CENTER ==>
              var next := Blended(exp, last, eta, time).value;
              next <= last.value && (-1.0 < eta.value < 0.0 && time > 0.0 ==> next < last.value)
  {
    if eta.Number? && last.Number? && time >= 0.0 {
      BlendedDistance(exp, last.value, eta.value, time);
    }
  }

  /**
   The batch is that fraction of the load as a count: rounded down, but no fewer than the floor and no more than
   there is. Without such a number it is any count in these bounds.
   */
  predicate IsPortion(taken: nat, total: nat, fraction: Float) {
    && Min(FLOOR, total) <= taken <= total
    && (fraction.Number? && fraction.value >= 0.0 ==>
          var share := Times(total as real, fraction.value);
          if fraction.value > 1.0 then taken == total
          else if share >= FLOOR as real then share - 1.0 < taken as real <= share
          else taken == Min(FLOOR, total))
  }

  lemma ShareBounds(total: nat, fraction: real)
    requires fraction >= 0.0
    ensures var share := Times(total as real, fraction);
            && share >= 0.0
            && (fraction <= 1.0 ==> share <= total as real)
            && (fraction <= 0.5 ==> 2.0 * share <= total as real)
            && (fraction > 1.0 ==> share >= total as real)
  {
    var n := total as real;
    MulNonNegative(n, fraction);
    if fraction <= 1.0 {
      MulNonNegative(n, 1.0 - fraction);
    } else {
      MulNonNegative(n, fraction - 1.0);
    }
    if fraction <= 0.5 {
      MulNonNegative(n, 0.5 - fraction);
    }
  }

  function Clamped(count: nat, total: nat): nat {
    var n := if count < FLOOR then FLOOR else count;
    if n > total then total else n
  }

  lemma ClampedShare(share: real, total: nat)
    requires share >= 0.0
    ensures var taken := Clamped(share.Floor, total);
            && Min(FLOOR, total) <= taken <= total
            && (share >= total as real ==> taken == total)
            && (share <= total as real ==>
                  if share >= FLOOR as real then share - 1.0 < taken as real <= share else taken == Min(FLOOR, total))
            && (2.0 * share <= total as real ==> taken <= FLOOR || 2 * taken <= total)
  {
  }

  lemma PortionIs(total: nat, fraction: real, share: real, count: nat)
    requires fraction >= 0.0 && share == Times(total as real, fraction) && share >= 0.0 && count == share.Floor
    ensures IsPortion(Clamped(count, total), total, Number(fraction))
    ensures fraction <= 0.5 ==> Clamped(count, total) <= FLOOR || 2 * Clamped(count, total) <= total
  {
    hide Times, Clamped;
    ShareBounds(total, fraction);
    ClampedShare(share, total);
  }

  class Controller {
    const exp: real -> real
    var initialized: bool
    var initialTime: real
    var totalLoad: nat
    var currentTaken: nat
    var relativeTime: real
    var totalAdded: int
    var totalRemoved: int
    var deltaEta: Float

    ghost var batches: seq<nat>  // every batch size given out
    ghost var regular: bool      // the clock never went back, and the load was never stuck

    /** The fraction of the load to take is a number between none and half of it. */
    predicate Steady()
      reads this
    {
      deltaEta.Number? && 0.0 <= deltaEta.value <= 2.0 * CENTER
    }

    ghost predicate Valid()
      reads this
    {
      && ExpLike(exp)
      && (regular ==> Steady())
      && totalAdded - totalRemoved == totalLoad - currentTaken
      && totalRemoved == Total(batches)
      && Min(FLOOR, totalLoad) <= currentTaken <= totalLoad
      && (!initialized ==> totalLoad == 0 && totalAdded == 0 && relativeTime == 0.0)
    }

    constructor (exp: real -> real)
      requires ExpLike(exp)
      ensures Valid() && !initialized && regular && batches == []
      ensures deltaEta == Number(CENTER)
    {
      this.exp := exp;
      initialized, initialTime := false, 0.0;
      totalLoad, currentTaken, relativeTime := 0, 0, 0.0;
      totalAdded, totalRemoved := 0, 0;
      deltaEta := Number(CENTER);
      batches, regular := [], true;
    }

    /** How far the load has moved for what was taken: from -1 (falling fast) to 1 (rising fast). */
    method EtaLoad(total: nat, deltaTime: real) returns (eta: Float)
      requires ExpLike(exp)
      ensures eta == Eta(exp, total, totalLoad, currentTaken, deltaTime)
    {
      hide Times, Over;
      var deltaTotal := total - totalLoad;
      var sign := if deltaTotal < 0 then -1.0 else 1.0;
      if Headroom(total) == 0 {
        // the quotient is infinite: its exponential vanishes, unless it is multiplied by zero
        return if deltaTotal == 0 then NaN else Number(sign);
      }
      var moved := Abs(deltaTotal as real);
      var scale := Over(MAX_COMMANDS as real, Headroom(total) as real);
      var x;
      if currentTaken != 0 {
        var taken := currentTaken as real;
        x := Times(exp(Over(deltaTime, taken) - deltaTime), Over(moved, taken));
      } else {
        x := moved;
      }
      eta := Number(Times(sign, 1.0 - exp(-Times(x, scale))));
    }

    method CalculateExecution(total: nat, now: real) returns (taken: nat)
      requires Valid()
      modifies this
      ensures Valid() && initialized
      // the new state
      ensures totalLoad == total && currentTaken == taken
      ensures batches == old(batches) + [taken]
      ensures totalAdded == old(totalAdded) + total - old(totalLoad) + (if old(initialized) then old(currentTaken) else 0)
      ensures totalRemoved == old(totalRemoved) + taken
      ensures relativeTime == if old(initialized) then now - old(initialTime) else 0.0
      ensures regular <==> old(regular) && (old(initialized) ==>
                             now - old(initialTime) >= old(relativeTime) && !Stuck(total, old(totalLoad)))
      // the fraction, which follows the load from the second call on
      ensures deltaEta == if !old(initialized) then old(deltaEta)
                          else Blended(exp, old(deltaEta),
                                       Eta(exp, total, old(totalLoad), old(currentTaken), relativeTime - old(relativeTime)),
                                       relativeTime - old(relativeTime))
      // a poisoned controller stays poisoned
      ensures deltaEta.NaN? <==> old(deltaEta).NaN? || (old(initialized) && Stuck(total, old(totalLoad)))
      // it rises with the load and falls with it
      ensures regular && total >= old(totalLoad) && old(deltaEta).value <= CENTER ==>
                && deltaEta.value >= old(deltaEta).value
                && (old(initialized) && relativeTime > old(relativeTime) && total > old(totalLoad) ==>
                    deltaEta.value > old(deltaEta).value)
      ensures regular && total < old(totalLoad) && old(deltaEta).value >= CENTER ==>
                && deltaEta.value <= old(deltaEta).value
                && (old(initialized) && relativeTime > old(relativeTime) && Headroom(total) != 0 ==>
                    deltaEta.value < old(deltaEta).value)
      // how much is taken
      ensures Min(FLOOR, total) <= taken <= total
      ensures regular ==> taken <= FLOOR || 2 * taken <= total
      ensures IsPortion(taken, total, deltaEta)
    {
      hide Blended, Eta, IsPortion, ExpLike, Stuck, Total;
      var newTotalAdded, newRelativeTime, deltaTime, eta := Measure(total, now);
      ghost var last := deltaEta;
      deltaEta := Blend(eta, deltaTime);
      EtaBounds(exp, total, totalLoad, currentTaken, deltaTime);
      BlendedFacts(exp, last, eta, deltaTime);
      taken := Settle(total, newTotalAdded, newRelativeTime);
    }

    /** The new point: so much of the load is taken, and the totals say so. */
    method Settle(total: nat, newTotalAdded: int, newRelativeTime: real) returns (taken: nat)
      modifies this`currentTaken, this`relativeTime, this`totalLoad, this`totalAdded, this`totalRemoved, this`batches
      ensures currentTaken == taken && relativeTime == newRelativeTime && totalLoad == total
      ensures totalAdded == newTotalAdded && totalRemoved == old(totalRemoved) + taken
      ensures batches == old(batches) + [taken] && Total(batches) == Total(old(batches)) + taken
      ensures Min(FLOOR, total) <= taken <= total
      ensures Steady() ==> taken <= FLOOR || 2 * taken <= total
      ensures IsPortion(taken, total, deltaEta)
    {
      currentTaken := Portion(total);
      relativeTime := newRelativeTime;
      totalLoad := total;
      totalAdded := newTotalAdded;
      totalRemoved := totalRemoved + currentTaken;
      taken := currentTaken;
      assert (batches + [taken])[..|batches|] == batches;
      batches := batches + [taken];
    }

    /** What has happened since the last call; the first call only takes the time. */
    method Measure(total: nat, now: real) returns (newTotalAdded: int, newRelativeTime: real, deltaTime: real, eta: Float)
      requires Valid()
      modifies this`initialized, this`initialTime, this`regular
      ensures initialized && initialTime == if old(initialized) then old(initialTime) else now
      ensures newTotalAdded == totalAdded + total - totalLoad + (if old(initialized) then currentTaken else 0)
      ensures newRelativeTime == if old(initialized) then now - initialTime else 0.0
      ensures deltaTime == newRelativeTime - relativeTime
      ensures regular <==> old(regular) && (old(initialized) ==> deltaTime >= 0.0 && !Stuck(total, totalLoad))
      ensures eta == if old(initialized) then Eta(exp, total, totalLoad, currentTaken, deltaTime) else Number(0.0)
      ensures !old(initialized) ==> deltaTime == 0.0
    {
      newTotalAdded, newRelativeTime, deltaTime, eta := total, 0.0, 0.0, Number(0.0);
      if !initialized {
        initialTime := now;
        initialized := true;
      } else {
        newRelativeTime := now - initialTime;
        deltaTime := newRelativeTime - relativeTime;
        var newAdded := total - totalLoad + currentTaken;
        newTotalAdded := totalAdded + newAdded;
        regular := regular && deltaTime >= 0.0 && !Stuck(total, totalLoad);
        eta := EtaLoad(total, deltaTime);
      }
    }

    /** The new fraction: the wanted one, weighted against the last one by the time that has passed. */
    method Blend(eta: Float, deltaTime: real) returns (next: Float)
      ensures next == Blended(exp, deltaEta, eta, deltaTime)
    {
      hide Times;
      if eta.NaN? || deltaEta.NaN? {
        return NaN;
      }
      var wanted := CENTER + CENTER * eta.value;
      var ratio := exp(Times(-deltaTime, Abs(wanted)));
      next := Number(Mixed(wanted, deltaEta.value, ratio));
    }

    /** That fraction of the load as a count, but no fewer than the floor and no more than there is. */
    method Portion(total: nat) returns (taken: nat)
      ensures Min(FLOOR, total) <= taken <= total
      ensures Steady() ==> taken <= FLOOR || 2 * taken <= total
      ensures IsPortion(taken, total, deltaEta)
    {
      if deltaEta.Number? && deltaEta.value >= 0.0 {
        hide Times;
        var portion := Times(total as real, deltaEta.value);
        ShareBounds(total, deltaEta.value);
        taken := portion.Floor;
        PortionIs(total, deltaEta.value, portion, taken);
        hide IsPortion;
      } else {
        taken := *;  // the conversion to an unsigned integer is undefined
      }
      if taken < FLOOR {
        taken := FLOOR;
      }
      if taken > total {
        taken := total;
      }
    }
  }
}
