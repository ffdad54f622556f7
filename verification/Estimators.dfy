// Laws of the learned estimates, the per-component weight and the decision confidence
// (crates/fp-core/src/fuzzy/engine.rs), for every reachable frequency and agreement table.
module Estimators {
  import opened Basics
  import opened Component
  import opened Scoring
  import F = Frequency
  import A = Agreement

  lemma DivLess(a: real, b: real, c: real, d: real)
    requires b > 0.0 && d > 0.0 && a * d < c * b
    ensures a / b < c / d
  {
    var x, y := a / b, c / d;
    assert x * b == a && y * d == c;
    assert (y - x) * (b * d) == c * b - a * d by {
      assert y * (b * d) == (y * d) * b;
      assert x * (b * d) == (x * b) * d;
    }
  }

  lemma RarityRises(f: F.Freq, value: Hash32)
    ensures var g := f.(perValue := f.perValue[value := f.Count(value) + 1], total := f.total + 1);
      f.Count(value) <= f.total ==> RawU(g, value) > RawU(f, value)
  {
    var c, t := f.Count(value) as real, f.total as real;
    if f.Count(value) <= f.total {
      DivLess(c + 0.5, t + 1.0, c + 1.5, t + 2.0);
    }
  }

  lemma RarityFalls(f: F.Freq, value: Hash32, other: Hash32)
    requires other != value
    ensures var g := f.(perValue := f.perValue[value := f.Count(value) + 1], total := f.total + 1);
      RawU(g, other) < RawU(f, other)
  {
    var o, t := f.Count(other) as real, f.total as real;
    DivLess(o + 0.5, t + 2.0, o + 0.5, t + 1.0);
  }

  /** The share of a value among all sightings, with half a sighting more, kept between the two bounds. */
  lemma RarityShare(f: F.Freq, value: Hash32)
    ensures var u, hits, all := UEstimate(f, value), f.Count(value) as real + 0.5, f.total as real + 1.0;
      if hits < 0.0001 * all then u == 0.0001
      else if hits > 0.9999 * all then u == 0.9999
      else u * all == hits
  {
    var hits, all := f.Count(value) as real + 0.5, f.total as real + 1.0;
    QuotientBelow(hits, all, 0.0001);
    QuotientAbove(hits, all, 0.9999);
  }

  lemma QuotientBelow(x: real, y: real, q: real)
    requires y > 0.0
    ensures x < q * y <==> x / y < q
  {
    QuotientAbove(x, y, q);
    if x / y == q { assert (x / y) * y == x; }
    if x == q * y { Cancel(x / y, q, y); }
  }

  lemma QuotientAbove(x: real, y: real, q: real)
    requires y > 0.0
    ensures x > q * y <==> x / y > q
  {
    var z := x / y;
    assert z * y == x;
    ProductSign(y, z - q);
    Distribute(z, q, y);
  }

  /** Where clamping shows: a strict rise survives it exactly if it starts below the ceiling and ends above the
      floor. */
  lemma ClampStrict(x: real, y: real, lo: real, hi: real)
    requires x < y && lo < hi
    ensures Clamp(x, lo, hi) <= Clamp(y, lo, hi)
    ensures Clamp(x, lo, hi) < Clamp(y, lo, hi) <==> Clamp(x, lo, hi) < hi && lo < Clamp(y, lo, hi)
  {
  }

  /** Recording a value makes it count as more common and every other value as rarer, strictly so between the
      bounds; a dropped recording changes nothing. */
  lemma RarityLaws(f: F.Freq, cap: Option<nat>, value: Hash32, other: Hash32)
    requires f.Valid(cap) && other != value
    ensures var g := F.Recorded(f, cap, value);
      var (u, u', o, o') := (UEstimate(f, value), UEstimate(g, value), UEstimate(f, other), UEstimate(g, other));
      if F.Accepts(f, cap, value) then
        && u <= u' && (u < u' <==> u < 0.9999 && 0.0001 < u')
        && o' <= o && (o' < o <==> o' < 0.9999 && 0.0001 < o)
      else u == u' && o == o'
  {
    F.CountAtMostTotal(f, cap, value);
    RarityRises(f, value);
    RarityFalls(f, value, other);
    var g := F.Recorded(f, cap, value);
    if F.Accepts(f, cap, value) {
      ClampStrict(RawU(f, value), RawU(g, value), U_FLOOR, U_CEIL);
      ClampStrict(RawU(g, other), RawU(f, other), U_FLOOR, U_CEIL);
    }
  }

  /** Clamping keeps those movements in the same direction. */
  lemma ClampMonotone(x: real, y: real, lo: real, hi: real)
    requires x <= y && lo <= hi
    ensures Clamp(x, lo, hi) <= Clamp(y, lo, hi)
    ensures lo <= x && y <= hi ==> Clamp(x, lo, hi) == x && Clamp(y, lo, hi) == y
  {
  }

  /** Before clamping, the estimate mixes the prior and the observed rate. */
  lemma RawMix(agree: nat, total: nat, prior: real)
    requires total > 0
    ensures var rate := agree as real / total as real;
      RawM((agree, total), prior) - rate == 20.0 * (prior - rate) / (total as real + 20.0)
  {
    var a, t := agree as real, total as real;
    var rate, d := a / t, t + 20.0;
    assert rate * t == a;
    var est := RawM((agree, total), prior);
    assert est * d == a + 20.0 * prior;
    var err := 20.0 * (prior - rate) / d;
    assert err * d == 20.0 * (prior - rate);
    assert (est - rate) * d == est * d - rate * d == err * d;
    Cancel(est - rate, err, d);
  }

  /** The match rate of a component is its prior until something was compared, and from then on off the observed
      rate by twenty times the gap over the comparisons and twenty, kept between the two bounds. */
  lemma ReliabilityMix(a: A.Agree, name: string, prior: real)
    ensures var (agree, total) := a.Stats(name);
      var m := MEstimate(a, name, prior);
      if total == 0 then m == prior
      else
        var rate := agree as real / total as real;
        var mix := rate + 20.0 * (prior - rate) / (total as real + 20.0);
        m == if mix < 0.0001 then 0.0001 else if mix > 0.9999 then 0.9999 else mix
  {
    var (agree, total) := a.Stats(name);
    if total > 0 { RawMix(agree, total, prior); }
  }

  lemma Cancel(x: real, y: real, d: real)
    requires d > 0.0 && x * d == y * d
    ensures x == y
  {
  }

  lemma MixMoves(agree: real, total: real, prior: real)
    requires 0.0 <= agree <= total && 0.0 < prior < 1.0
    ensures (agree + 1.0 + ALPHA * prior) / (total + 1.0 + ALPHA) > (agree + ALPHA * prior) / (total + ALPHA)
    ensures (agree + ALPHA * prior) / (total + 1.0 + ALPHA) < (agree + ALPHA * prior) / (total + ALPHA)
    ensures total == 0.0 ==> (agree + ALPHA * prior) / (total + ALPHA) == prior
  {
    var est, d := agree + ALPHA * prior, total + ALPHA;
    assert 0.0 < est < d;
    assert est * (d + 1.0) == est * d + est && (est + 1.0) * d == est * d + d;
    DivLess(est, d, est + 1.0, d + 1.0);
    DivLess(est, d + 1.0, est, d);
  }

  lemma RawMoves(a: A.Agree, cap: Option<nat>, name: string, prior: real)
    requires a.Valid(cap) && 0.0 < prior < 1.0 && A.Accepts(a, cap, name)
    ensures RawM(A.Recorded(a, cap, name, true).Stats(name), prior) > RawM(a.Stats(name), prior)
    ensures RawM(A.Recorded(a, cap, name, false).Stats(name), prior) < RawM(a.Stats(name), prior)
    ensures a.Stats(name).1 == 0 ==> RawM(a.Stats(name), prior) == prior
  {
    var (agree, total) := a.Stats(name);
    assert A.Recorded(a, cap, name, true).Stats(name) == (agree + 1, total + 1);
    assert A.Recorded(a, cap, name, false).Stats(name) == (agree, total + 1);
    MixMoves(agree as real, total as real, prior);
  }

  lemma PriorClamped(a: A.Agree, name: string, prior: real)
    requires 0.0001 <= prior <= 0.9999 && a.Stats(name).0 <= a.Stats(name).1
    ensures MEstimate(a, name, prior) == Clamp(RawM(a.Stats(name), prior), M_FLOOR, M_CEIL)
  {
    if a.Stats(name).1 == 0 { MixMoves(0.0, 0.0, prior); }
  }

  /** An agreement never lowers the match rate and a disagreement never raises it, and each moves it strictly
      between the bounds; a dropped one, or one of another component, leaves it alone. */
  lemma ReliabilityMoves(a: A.Agree, cap: Option<nat>, name: string, prior: real, other: string, agrees: bool)
    requires a.Valid(cap) && 0.0001 <= prior <= 0.9999 && other != name
    ensures var b := A.Recorded(a, cap, name, agrees);
      var m, m' := MEstimate(a, name, prior), MEstimate(b, name, prior);
      && MEstimate(b, other, prior) == MEstimate(a, other, prior)
      && if !A.Accepts(a, cap, name) then m' == m
         else if agrees then m <= m' && (m < m' <==> m < 0.9999 && 0.0001 < m')
         else m' <= m && (m' < m <==> m' < 0.9999 && 0.0001 < m)
  {
    if A.Accepts(a, cap, name) {
      RawMoves(a, cap, name, prior);
      PriorClamped(a, name, prior);
      PriorClamped(A.Recorded(a, cap, name, agrees), name, prior);
      var x, y := RawM(a.Stats(name), prior), RawM(A.Recorded(a, cap, name, agrees).Stats(name), prior);
      if agrees { ClampStrict(x, y, M_FLOOR, M_CEIL); } else { ClampStrict(y, x, M_FLOOR, M_CEIL); }
    }
  }

  /** Every estimate is a proper probability, so every logarithm's argument is positive. */
  lemma LogArgumentsPositive(a: A.Agree, f: F.Freq, name: string, value: Hash32, u: real)
    requires u == UEstimate(f, value) || u == SET_U
    ensures var m := MEstimate(a, name, Classify(name).stability.MPrior());
      0.0 < m < 1.0 && 0.0 < u < 1.0 && m / u > 0.0 && (1.0 - m) / (1.0 - u) > 0.0
  {
    var m := MEstimate(a, name, Classify(name).stability.MPrior());
    PositiveQuotient(m, u);
    PositiveQuotient(1.0 - m, 1.0 - u);
  }

  lemma PositiveQuotient(x: real, y: real)
    requires x > 0.0 && y > 0.0
    ensures x / y > 0.0
    ensures x > y ==> x / y > 1.0
    ensures x < y ==> x / y < 1.0
    ensures x == y ==> x / y == 1.0
  {
    if x < y {
      DivLess(x, y, 1.0, 1.0);
    } else if x > y {
      DivLess(1.0, 1.0, x, y);
    }
    DivLess(0.0, 1.0, x, y);
  }

  lemma ProductSign(x: real, y: real)
    requires x > 0.0
    ensures x * y > 0.0 <==> y > 0.0
    ensures x * y == 0.0 <==> y == 0.0
  {
    if y > 0.0 {
      assert x * y > 0.0;
    } else if y < 0.0 {
      assert x * -y > 0.0;
    }
  }

  /** The weight rises with similarity exactly when the component is more likely to agree on the
      same device than on another one. */
  lemma WeightRisesWithSimilarity(an: Analytic, m: real, u: real, low: real, high: real)
    requires an.Lawful() && 0.0 < m < 1.0 && 0.0 < u < 1.0 && low < high
    ensures Weight(an, m, u, low) < Weight(an, m, u, high) <==> m > u
    ensures Weight(an, m, u, low) == Weight(an, m, u, high) <==> m == u
  {
    PositiveQuotient(m, u);
    PositiveQuotient(1.0 - m, 1.0 - u);
    var x, y := an.log2(m / u), an.log2((1.0 - m) / (1.0 - u));
    var one := an.log2(1.0);
    assert Weight(an, m, u, high) - Weight(an, m, u, low) == (high - low) * (x - y);
    ProductSign(high - low, x - y);
    assert if m > u then x > one > y else if m < u then x < one < y else x == one == y;
  }

  // ---- Confidence ----

  lemma ScaleRange(c: nat, d: nat)
    ensures 0.5 <= CompletenessScale(c) <= 1.0
    ensures c <= d ==> CompletenessScale(c) <= CompletenessScale(d)
  {
  }

  lemma BaseBands(an: Analytic, best: Option<Score>, second: Option<Score>)
    requires an.Lawful()
    requires best.Some? && second.Some? ==> Ge(best.value, second.value)
    ensures match Decide(best)
      case Match => 0.75 <= BaseConfidence(an, Match, best, second) <= 1.0
      case Review => 0.25 <= BaseConfidence(an, Review, best, second) < 0.5
      case NewDevice => 0.75 < BaseConfidence(an, NewDevice, best, second) <= 1.0
  {
    if best.Some? && best.value.Fin? {
      var x := (best.value.r - T_HI) / CONF_SCALE;
      assert an.logistic(x) < 1.0 && (x >= 0.0 ==> an.logistic(x) >= an.logistic(0.0));
      var y := (best.value.r - T_LO) / CONF_SCALE;
      assert an.logistic(y) > 0.0 && (y < 0.0 ==> an.logistic(y) < an.logistic(0.0));
      if second.Some? && second.value.Fin? {
        var z := (best.value.r - second.value.r) / CONF_SCALE;
        assert z >= 0.0 && an.logistic(z) < 1.0 && an.logistic(z) >= an.logistic(0.0);
      }
    }
  }

  lemma Times(x: real, y: real, z: real)
    requires x >= 0.0 && y <= z
    ensures x * y <= x * z
  {
    NonNegative(x, z - y);
    Distribute(z, y, x);
  }

  lemma NonNegative(x: real, y: real)
    requires x >= 0.0 && y >= 0.0
    ensures x * y >= 0.0
  {
  }

  /** A fraction scaled by completeness loses at most half. */
  lemma ScaledFraction(base: real, scale: real) returns (scaled: real)
    requires 0.0 <= base <= 1.0 && 0.5 <= scale <= 1.0
    ensures scaled == base * scale == Completed(base, scale)
    ensures base * 0.5 <= scaled <= base
  {
    scaled := base * scale;
    var spare, above := 1.0 - scale, scale - 0.5;
    NonNegative(base, spare);
    NonNegative(base, above);
    assert base - scaled == base * spare && scaled - base * 0.5 == base * above;
  }

  lemma CompletedBand(base: real, scale: real, lo: real, hi: real)
    requires 0.0 <= lo <= base <= hi <= 1.0 && 0.5 <= scale <= 1.0
    ensures lo * 0.5 <= Completed(base, scale) <= hi
    ensures lo < base ==> lo * 0.5 < Completed(base, scale)
  {
    var scaled := ScaledFraction(base, scale);
  }

  lemma CompletedOrder(low: real, high: real, scale: real)
    requires 0.0 <= low < high <= 1.0 && 0.5 <= scale <= 1.0
    ensures Completed(low, scale) < Completed(high, scale)
  {
    var x := ScaledFraction(low, scale);
    var y := ScaledFraction(high, scale);
    ProductSign(scale, high - low);
    Distribute(high, low, scale);
  }

  lemma Distribute(x: real, y: real, z: real)
    ensures z * (x - y) == x * z - y * z
  {
  }

  lemma CompletedRises(base: real, x: real, y: real)
    requires 0.0 <= base && x <= y
    ensures Completed(base, x) <= Completed(base, y)
  {
    var p, q := base * x, base * y;
    Times(base, x, y);
    ClampMonotone(p, q, 0.0, 1.0);
  }

  /** The band each verdict's confidence lies in. */
  lemma ConfidenceBands(an: Analytic, best: Option<Score>, second: Option<Score>, compared: nat)
    requires an.Lawful()
    requires best.Some? && second.Some? ==> Ge(best.value, second.value)
    ensures var c := Confidence(an, Decide(best), best, second, compared);
      match Decide(best)
      case Match => 0.375 <= c <= 1.0
      case Review => 0.125 <= c <= 0.5
      case NewDevice => 0.375 < c <= 1.0
  {
    BaseBands(an, best, second);
    var d := Decide(best);
    var base := BaseConfidence(an, d, best, second);
    ScaleRange(compared, compared);
    CompletedBand(base, CompletenessScale(compared), if d == Review then 0.25 else 0.75,
                  if d == Review then 0.5 else 1.0);
  }

  /** At the same completeness, a review is strictly less confident than either clear verdict. */
  lemma ReviewIsLeastConfident(an: Analytic, b1: Option<Score>, s1: Option<Score>, b2: Option<Score>,
                               s2: Option<Score>, compared: nat)
    requires an.Lawful() && Decide(b1) == Review && Decide(b2) != Review
    requires b1.Some? && s1.Some? ==> Ge(b1.value, s1.value)
    requires b2.Some? && s2.Some? ==> Ge(b2.value, s2.value)
    ensures Confidence(an, Review, b1, s1, compared) < Confidence(an, Decide(b2), b2, s2, compared)
  {
    BaseBands(an, b1, s1);
    BaseBands(an, b2, s2);
    ScaleRange(compared, compared);
    CompletedOrder(BaseConfidence(an, Review, b1, s1), BaseConfidence(an, Decide(b2), b2, s2),
                   CompletenessScale(compared));
  }

  /** Confidence never falls as more components take part. */
  lemma ConfidenceRisesWithCompared(an: Analytic, best: Option<Score>, second: Option<Score>, c: nat, d: nat)
    requires an.Lawful() && c <= d
    requires best.Some? && second.Some? ==> Ge(best.value, second.value)
    ensures Confidence(an, Decide(best), best, second, c) <= Confidence(an, Decide(best), best, second, d)
  {
    BaseBands(an, best, second);
    ScaleRange(c, d);
    CompletedRises(BaseConfidence(an, Decide(best), best, second), CompletenessScale(c), CompletenessScale(d));
  }

  // ---- The confidence in closed form ----

  /** How much of a rich fingerprint was compared, between a half and all of it. */
  function Whole(compared: nat): real {
    if compared >= 8 then 1.0 else 0.5 + compared as real / 16.0
  }

  /** What a match has to stand above: the upper threshold and the runner-up. */
  function Bar(second: Option<Score>): real {
    if second.Some? && second.value.Fin? && second.value.r > 12.0 then second.value.r else 12.0
  }

  /** The confidence before completeness: of a match by how far it stands above its bar, of a review by how far
      it is through the band, of a new device by how far the best candidate falls short of the band. */
  function Certainty(an: Analytic, best: Option<Score>, second: Option<Score>): real {
    if best.None? || best.value.NegInf? then 1.0
    else if best.value.r >= 12.0 then 0.5 + 0.5 * an.logistic((best.value.r - Bar(second)) / 4.0)
    else if best.value.r >= 8.0 then 0.25 + (best.value.r - 8.0) / 16.0
    else 1.0 - 0.5 * an.logistic((best.value.r - 8.0) / 4.0)
  }

  lemma WholeIsScale(compared: nat)
    ensures CompletenessScale(compared) == Whole(compared)
  {
  }

  lemma MatchBase(an: Analytic, b: real, second: Option<Score>)
    requires an.Lawful() && b >= 12.0
    ensures BaseConfidence(an, Match, Some(Fin(b)), second) == Certainty(an, Some(Fin(b)), second)
  {
    assert an.logistic((b - 12.0) / 4.0) < 1.0;
    if second.Some? && second.value.Fin? {
      var x, y := (b - 12.0) / 4.0, (b - second.value.r) / 4.0;
      assert second.value.r > 12.0 ==> an.logistic(y) < an.logistic(x);
      assert second.value.r < 12.0 ==> an.logistic(x) < an.logistic(y);
    }
  }

  lemma ReviewBase(an: Analytic, b: real, second: Option<Score>)
    requires 8.0 <= b < 12.0
    ensures BaseConfidence(an, Review, Some(Fin(b)), second) == Certainty(an, Some(Fin(b)), second)
  {
    assert 0.25 * ((b - 8.0) / 4.0) == (b - 8.0) / 16.0;
  }

  lemma UnclampedProduct(base: real, compared: nat)
    requires 0.0 <= base <= 1.0
    ensures Completed(base, CompletenessScale(compared)) == base * Whole(compared)
  {
    WholeIsScale(compared);
    ScaleRange(compared, compared);
    var scaled := ScaledFraction(base, CompletenessScale(compared));
  }

  lemma BaseIsCertainty(an: Analytic, best: Option<Score>, second: Option<Score>)
    requires an.Lawful()
    ensures BaseConfidence(an, Decide(best), best, second) == Certainty(an, best, second)
  {
    if best.Some? && best.value.AtLeast(12.0) {
      MatchBase(an, best.value.r, second);
    } else if best.Some? && best.value.AtLeast(8.0) {
      ReviewBase(an, best.value.r, second);
    }
  }

  lemma ConfidenceOfBase(an: Analytic, d: Decision, best: Option<Score>, second: Option<Score>, compared: nat,
                         base: real)
    requires base == BaseConfidence(an, d, best, second) && 0.0 <= base <= 1.0
    ensures Confidence(an, d, best, second, compared) == base * Whole(compared)
  {
    UnclampedProduct(base, compared);
  }

  /** Every confidence is that certainty times the share compared. */
  lemma ConfidenceMeans(an: Analytic, best: Option<Score>, second: Option<Score>, compared: nat, sure: real)
    requires an.Lawful() && sure == Certainty(an, best, second)
    requires best.Some? && second.Some? ==> Ge(best.value, second.value)
    ensures Confidence(an, Decide(best), best, second, compared) == sure * Whole(compared)
    ensures 0.0 <= sure <= 1.0
  {
    BaseBands(an, best, second);
    BaseIsCertainty(an, best, second);
    ConfidenceOfBase(an, Decide(best), best, second, compared, sure);
  }

  /** At the same completeness the more certain decision is the more confident. */
  lemma SurerIsMoreConfident(an: Analytic, d: Decision, b1: Option<Score>, s1: Option<Score>, b2: Option<Score>,
                             s2: Option<Score>, compared: nat)
    requires 0.0 <= BaseConfidence(an, d, b1, s1) < BaseConfidence(an, d, b2, s2) <= 1.0
    ensures Confidence(an, d, b1, s1, compared) < Confidence(an, d, b2, s2, compared)
  {
    ScaleRange(compared, compared);
    CompletedOrder(BaseConfidence(an, d, b1, s1), BaseConfidence(an, d, b2, s2), CompletenessScale(compared));
  }

  lemma Steep(an: Analytic, x: real, y: real)
    requires an.Lawful() && x < y
    ensures an.logistic(x / 4.0) < an.logistic(y / 4.0)
  {
    assert x / 4.0 < y / 4.0;
  }

  lemma LessLead(an: Analytic, best: real, near: real, far: Option<Score>)
    requires an.Lawful() && best >= 12.0 && near <= best
    requires far.Some? && far.value.Fin? ==> far.value.r < near
    ensures var x, y := Certainty(an, Some(Fin(best)), Some(Fin(near))), Certainty(an, Some(Fin(best)), far);
      if near > 12.0 then x < y else x == y
  {
    if near > 12.0 { Steep(an, best - near, best - Bar(far)); }
  }

  /** A runner-up past the upper threshold costs a match confidence, the more the closer it is; short of the
      threshold it costs nothing. */
  lemma CloserRunnerUpCosts(an: Analytic, best: real, near: real, far: Option<Score>, compared: nat)
    requires an.Lawful() && best >= 12.0 && near <= best
    requires far.Some? && far.value.Fin? ==> far.value.r < near
    ensures var contested := Confidence(an, Match, Some(Fin(best)), Some(Fin(near)), compared);
      var clear := Confidence(an, Match, Some(Fin(best)), far, compared);
      if near > 12.0 then contested < clear else contested == clear
  {
    LessLead(an, best, near, far);
    MatchBase(an, best, Some(Fin(near)));
    MatchBase(an, best, far);
    BaseBands(an, Some(Fin(best)), Some(Fin(near)));
    BaseBands(an, Some(Fin(best)), far);
    if near > 12.0 {
      SurerIsMoreConfident(an, Match, Some(Fin(best)), Some(Fin(near)), Some(Fin(best)), far, compared);
    }
  }

  /** A match that ties with its runner-up is three quarters certain. */
  lemma TiedMatch(an: Analytic, best: real, compared: nat)
    requires an.Lawful() && best >= 12.0
    ensures Confidence(an, Match, Some(Fin(best)), Some(Fin(best)), compared) == 0.75 * Whole(compared)
  {
    assert (best - best) / 4.0 == 0.0;
    ConfidenceMeans(an, Some(Fin(best)), Some(Fin(best)), compared, 0.75);
  }

  lemma CertaintyFollows(an: Analytic, low: real, high: real, second: Option<Score>)
    requires an.Lawful() && low < high && Decide(Some(Fin(low))) == Decide(Some(Fin(high)))
    ensures var x, y := Certainty(an, Some(Fin(low)), second), Certainty(an, Some(Fin(high)), second);
      if low < 8.0 then x > y else x < y
  {
    if low >= 12.0 {
      Steep(an, low - Bar(second), high - Bar(second));
    } else if low < 8.0 {
      Steep(an, low - 8.0, high - 8.0);
    }
  }

  /** Confidence strictly rises with the best score for a match and a review, and strictly falls for a new
      device, the other things being equal. */
  lemma ConfidenceFollowsScore(an: Analytic, low: real, high: real, second: Option<Score>, compared: nat)
    requires an.Lawful() && low < high && Decide(Some(Fin(low))) == Decide(Some(Fin(high)))
    requires second.Some? ==> Ge(Fin(low), second.value)
    ensures var d := Decide(Some(Fin(low)));
      var x := Confidence(an, d, Some(Fin(low)), second, compared);
      var y := Confidence(an, d, Some(Fin(high)), second, compared);
      if d == NewDevice then x > y else x < y
  {
    var d, x, y := Decide(Some(Fin(low))), Some(Fin(low)), Some(Fin(high));
    CertaintyFollows(an, low, high, second);
    BaseIsCertainty(an, x, second);
    BaseIsCertainty(an, y, second);
    BaseBands(an, x, second);
    BaseBands(an, y, second);
    if d == NewDevice {
      SurerIsMoreConfident(an, d, y, second, x, second, compared);
    } else {
      SurerIsMoreConfident(an, d, x, second, y, second, compared);
    }
  }

  /** A high rate costs three tenths; a consistent network signal adds a twentieth and a mismatch takes a half; all
      within zero and one. */
  lemma AdjustmentsStayInRange(confidence: real, p: Passive)
    requires 0.0 <= confidence <= 1.0
    ensures Penalised(confidence) == if confidence >= 0.3 then confidence - 0.3 else 0.0
    ensures Fused(confidence, p) ==
      match p
      case Consistent => if confidence <= 0.95 then confidence + 0.05 else 1.0
      case Mismatch => if confidence >= 0.5 then confidence - 0.5 else 0.0
      case Degraded => confidence
    ensures 0.0 <= Fused(Penalised(confidence), p) <= 1.0
  {
  }
}
