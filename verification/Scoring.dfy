// Stage two of the match (crates/fp-core/src/fuzzy/engine.rs): the Fellegi-Sunter score of a
// candidate, the double-threshold verdict and the decision confidence. Scores are reals, with
// negative infinity for a candidate that has no record.
module Scoring {
  import opened Basics
  import opened Component
  import F = Frequency
  import A = Agreement

  const T_HI: real := 12.0
  const T_LO: real := 8.0
  const TAU: real := 0.5
  const COLLISION_GAP: real := 2.0
  const SET_U: real := 0.05
  const U_FLOOR: real := 0.0001
  const U_CEIL: real := 0.9999
  const ALPHA: real := 20.0
  const M_FLOOR: real := 0.0001
  const M_CEIL: real := 0.9999
  const CONF_SCALE: real := 4.0
  const VELOCITY_PENALTY: real := 0.3
  const FULL_COMPONENTS: real := 8.0

  /** The two transcendental functions the score is built from, taken as given. */
  datatype Analytic = Analytic(log2: real -> real, logistic: real -> real) {
    ghost predicate Lawful() {
      && (forall x, y :: 0.0 < x < y ==> log2(x) < log2(y))
      && log2(1.0) == 0.0
      && (forall x :: 0.0 < logistic(x) < 1.0)
      && (forall x, y :: x < y ==> logistic(x) < logistic(y))
      && logistic(0.0) == 0.5
    }
  }

  datatype Score = NegInf | Fin(r: real) {
    predicate AtLeast(bound: real) {
      Fin? && r >= bound
    }
  }

  /** The total order in which candidates are sorted. */
  predicate Ge(a: Score, b: Score) {
    b.NegInf? || (a.Fin? && a.r >= b.r)
  }

  datatype Decision = Match | Review | NewDevice

  // ---- Estimates ----

  /** Add-one-half smoothed share of a value, before clamping. */
  function RawU(f: F.Freq, value: Hash32): real {
    (f.Count(value) as real + 0.5) / (f.total as real + 1.0)
  }

  function UEstimate(f: F.Freq, value: Hash32): real {
    Clamp(RawU(f, value), U_FLOOR, U_CEIL)
  }

  /** The agreement rate shrunk toward the prior; the prior itself with nothing recorded. */
  function RawM(stats: (nat, nat), prior: real): real {
    (stats.0 as real + ALPHA * prior) / (stats.1 as real + ALPHA)
  }

  function MEstimate(a: A.Agree, name: string, prior: real): real {
    var stats := a.Stats(name);
    if stats.1 == 0 then prior else Clamp(RawM(stats, prior), M_FLOOR, M_CEIL)
  }

  function Weight(an: Analytic, m: real, u: real, sim: real): real
    requires 0.0 < u < 1.0
  {
    sim * an.log2(m / u) + (1.0 - sim) * an.log2((1.0 - m) / (1.0 - u))
  }

  // ---- Comparison and score ----

  function Equal01(b: bool): real {
    if b then 1.0 else 0.0
  }

  /** Agreement fraction and rarity of one component; nothing for different kinds. */
  function Compare(k: Keying, f: F.Freq, probe: Stored, template: Stored): Option<(real, real)> {
    match (probe, template)
    case (Category(a), Category(b)) => Some((Equal01(a == b), UEstimate(f, a)))
    case (Numeric(a), Numeric(b)) => Some((Equal01(a == b), UEstimate(f, k.salted(k.text(IntNum(a))))))
    case (Set(a), Set(b)) =>
      var j := Jaccard(a, b);
      Some((if j >= TAU then 1.0 else j, SET_U))
    case _ => None
  }

  lemma CompareRange(k: Keying, f: F.Freq, probe: Stored, template: Stored)
    ensures Compare(k, f, probe, template).Some? ==>
      0.0 <= Compare(k, f, probe, template).value.0 <= 1.0 && 0.0 < Compare(k, f, probe, template).value.1 < 1.0
  {
    if probe.Set? && template.Set? { JaccardLaws(probe.items, template.items); }
  }

  /** What one component adds to the score; nothing when it is missing or of another kind. */
  function ComponentWeight(k: Keying, an: Analytic, f: F.Freq, a: A.Agree, name: string, probe: Stored,
                           template: map<string, Stored>): Option<real>
  {
    if name !in template then None
    else
      var c := Compare(k, f, probe, template[name]);
      if c.None? then None
      else
        CompareRange(k, f, probe, template[name]);
        Some(Weight(an, MEstimate(a, name, Classify(name).stability.MPrior()), c.value.1, c.value.0))
  }

  /** The summed weights over `names`, and how many took part. */
  function SumOver(names: seq<string>, weigh: string -> Option<real>): (real, nat) {
    if names == [] then (0.0, 0)
    else
      var n := |names| - 1;
      var (sum, compared) := SumOver(names[..n], weigh);
      var w := weigh(names[n]);
      if w.None? then (sum, compared) else (sum + w.value, compared + 1)
  }

  function Weigher(k: Keying, an: Analytic, f: F.Freq, a: A.Agree, probe: map<string, Stored>,
                   template: map<string, Stored>): string -> Option<real>
  {
    name => if name in probe then ComponentWeight(k, an, f, a, name, probe[name], template) else None
  }

  function ScoreCandidate(k: Keying, an: Analytic, f: F.Freq, a: A.Agree, probe: map<string, Stored>,
                          template: map<string, Stored>): (real, nat)
  {
    SumOver(Sorted(probe.Keys), Weigher(k, an, f, a, probe, template))
  }

  // ---- Confidence ----

  /** The logistic of a margin over a bound; negative infinity maps to zero. */
  function Margin(an: Analytic, s: Score, bound: real): real {
    if s.NegInf? then 0.0 else an.logistic((s.r - bound) / CONF_SCALE)
  }

  /** The logistic of the lead over the runner-up; no finite runner-up is a full lead. */
  function Lead(an: Analytic, best: Score, second: Option<Score>): real {
    if second.None? || second.value.NegInf? then 1.0 else Margin(an, best, second.value.r)
  }

  function MinReal(x: real, y: real): real {
    if x <= y then x else y
  }

  function CompletenessScale(compared: nat): real {
    0.5 + 0.5 * MinReal(compared as real / FULL_COMPONENTS, 1.0)
  }

  function BaseConfidence(an: Analytic, d: Decision, best: Option<Score>, second: Option<Score>): real {
    match d
    case Match =>
      var s := if best.Some? then best.value else Fin(T_HI);
      0.5 + 0.5 * MinReal(Margin(an, s, T_HI), Lead(an, s, second))
    case Review =>
      var s := if best.Some? && best.value.Fin? then best.value.r else T_LO;
      0.25 + 0.25 * Clamp((s - T_LO) / (T_HI - T_LO), 0.0, 1.0)
    case NewDevice =>
      var closeness := if best.Some? then Margin(an, best.value, T_LO) else 0.0;
      0.5 + 0.5 * (1.0 - closeness)
  }

  /** A sparse comparison pulls the base down, to half at least. */
  function Completed(base: real, scale: real): real {
    Clamp(base * scale, 0.0, 1.0)
  }

  function Confidence(an: Analytic, d: Decision, best: Option<Score>, second: Option<Score>, compared: nat): real {
    Completed(BaseConfidence(an, d, best, second), CompletenessScale(compared))
  }

  function Decide(best: Option<Score>): Decision {
    if best.Some? && best.value.AtLeast(T_HI) then Match
    else if best.Some? && best.value.AtLeast(T_LO) then Review
    else NewDevice
  }

  function Collides(best: Score, second: Option<Score>): bool {
    best.Fin? && second.Some? && second.value.AtLeast(T_HI) && best.r - second.value.r < COLLISION_GAP
  }

  function Penalised(confidence: real): real {
    Clamp(confidence - VELOCITY_PENALTY, 0.0, 1.0)
  }

  /** The passive network signal moves confidence by one of three amounts. */
  datatype Passive = Consistent | Mismatch | Degraded {
    function Adjustment(): real {
      match this
      case Consistent => 0.05
      case Mismatch => -0.5
      case Degraded => 0.0
    }
  }

  function Fused(confidence: real, p: Passive): real {
    Clamp(confidence + p.Adjustment(), 0.0, 1.0)
  }
}
