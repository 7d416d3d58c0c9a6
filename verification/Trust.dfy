/** Trust contexts: normalisation, decay, and the trust tier of routing.  Floats are reals. */
module Trust {
  import opened Wrappers

  datatype Result<+T> = Ok(value: T) | TrustFailure {
    predicate IsFailure() { TrustFailure? }
    function PropagateFailure<U>(): Result<U> requires TrustFailure? { TrustFailure }
    function Extract(): T requires Ok? { value }
  }

  datatype TrustContext = TrustContext(
    score: real,
    band: string,
    evidenceIds: seq<string>,
    authorityLevel: real,
    revision: int,
    supersedes: string,
    validFrom: string,
    validTo: string,
    decayRate: real,
    provenance: seq<string>,
    authorityChain: seq<string>,
    weightsHash: string,
    artifactHash: string
  )

  /** A context with the dataclass defaults. */
  function Plain(score: real, band: string, evidence: seq<string>, authority: real): TrustContext {
    TrustContext(score, band, evidence, authority, 1, "", "", "", 0.0, [], [], "", "")
  }

  function Band(score: real): string {
    if score < 0.34 then "low" else if score < 0.67 then "medium" else "high"
  }

  /** `str(item).strip()` is non-empty. */
  predicate NonBlank(s: string) { exists c | c in s :: !Space(c) }

  function KeepNonBlank(items: seq<string>): (r: seq<string>)
    ensures forall s | s in r :: NonBlank(s)
    ensures (forall s | s in items :: NonBlank(s)) ==> r == items
  {
    if items == [] then []
    else if NonBlank(items[0]) then [items[0]] + KeepNonBlank(items[1..])
    else KeepNonBlank(items[1..])
  }

  lemma KeepAgain(items: seq<string>)
    ensures KeepNonBlank(KeepNonBlank(items)) == KeepNonBlank(items)
  {
  }

  /** What `normalize_trust_context` accepts. */
  predicate Acceptable(t: TrustContext) {
    && KeepNonBlank(t.evidenceIds) != []
    && 0.0 <= t.score < 1.0
    && (t.band == "" || t.band == Band(t.score))
    && t.authorityLevel >= 0.0
    && t.revision >= 1
    && t.decayRate >= 0.0
  }

  /** `normalize_trust_context`, `validate_trust_context`: an empty band is read as the derived one,
      blank references are dropped. */
  function Validate(t: TrustContext): Result<TrustContext> {
    if Acceptable(t) then
      Ok(t.(band := Band(t.score), evidenceIds := KeepNonBlank(t.evidenceIds), provenance := KeepNonBlank(t.provenance),
            authorityChain := KeepNonBlank(t.authorityChain)))
    else
      TrustFailure
  }

  lemma ValidateAgain(t: TrustContext)
    requires Validate(t).Ok?
    ensures Validate(Validate(t).value) == Validate(t)
  {
    KeepAgain(t.evidenceIds);
    KeepAgain(t.provenance);
    KeepAgain(t.authorityChain);
  }

  function Max(a: real, b: real): real { if a < b then b else a }

  /** `decay_trust_context`. */
  function Decay(t: TrustContext, rate: real, floor: real): Result<TrustContext> {
    var n :- Validate(t);
    if rate < 0.0 then TrustFailure else
    Rescored(n, NextScore(n.score, rate, floor), rate)
  }

  /** The score after one more decay. */
  function NextScore(score: real, rate: real, floor: real): real { Max(floor, Part(score, 1.0 - rate)) }

  /** The part `q` of a score. */
  function Part(score: real, q: real): real { score * q }

  /** The band is derived afresh; provenance, authority chain and hashes are not carried over. */
  function Rescored(n: TrustContext, score: real, rate: real): Result<TrustContext> {
    Validate(TrustContext(score, "", n.evidenceIds, n.authorityLevel, n.revision + 1,
                          n.supersedes, n.validFrom, n.validTo, rate, [], [], "", ""))
  }

  function DecayTimes(t: TrustContext, rate: real, floor: real, n: nat): Result<TrustContext> {
    if n == 0 then Ok(t) else
    var d :- DecayTimes(t, rate, floor, n - 1);
    Decay(d, rate, floor)
  }

  function Power(b: real, n: nat): real {
    if n == 0 then 1.0 else Part(Power(b, n - 1), b)
  }

  lemma {:induction false} PowerUnit(b: real, n: nat)
    requires 0.0 <= b <= 1.0
    ensures 0.0 <= Power(b, n) <= 1.0
  {
    if n > 0 {
      PowerUnit(b, n - 1);
      Shrinks(Power(b, n - 1), b);
    }
  }

  lemma Shrinks(x: real, q: real)
    requires 0.0 <= x && 0.0 <= q <= 1.0
    ensures 0.0 <= Part(x, q) <= x
  {
    assert x * (1.0 - q) >= 0.0;
  }

  lemma PartOfPart(x: real, p: real, q: real)
    ensures Part(Part(x, p), q) == Part(x, Part(p, q))
  {
    assert (x * p) * q == x * (p * q);
  }

  /** max(floor, s(1-r)^n). */
  function ClosedScore(score: real, rate: real, floor: real, n: nat): real {
    Max(floor, Part(score, Power(1.0 - rate, n)))
  }

  /** Flooring early changes nothing: the floor itself only decays below the floor. */
  lemma FloorAgain(floor: real, x: real, q: real)
    requires 0.0 <= x && 0.0 <= q <= 1.0
    ensures Max(floor, Part(Max(floor, x), q)) == Max(floor, Part(x, q))
  {
    Shrinks(x, q);
    if x < floor { Shrinks(floor, q); }
  }

  lemma ClosedScoreFirst(score: real, rate: real, floor: real)
    ensures NextScore(score, rate, floor) == ClosedScore(score, rate, floor, 1)
  {
    assert Power(1.0 - rate, 0) == 1.0;
    assert Power(1.0 - rate, 1) == 1.0 - rate;
  }

  lemma ClosedScoreNext(score: real, rate: real, floor: real, n: nat)
    requires 0.0 <= score && 0.0 <= rate <= 1.0
    ensures NextScore(ClosedScore(score, rate, floor, n), rate, floor) == ClosedScore(score, rate, floor, n + 1)
  {
    var q := 1.0 - rate;
    var p := Power(q, n);
    PowerUnit(q, n);
    Shrinks(score, p);
    FloorAgain(floor, Part(score, p), q);
    PartOfPart(score, p, q);
  }

  /** What every decayed context has in common with the one it started from. */
  predicate DecayedFrom(t: TrustContext, d: TrustContext, rate: real, n: nat) {
    && d.revision == t.revision + n
    && d.band == Band(d.score)
    && d.evidenceIds == KeepNonBlank(t.evidenceIds)
    && d.authorityLevel == t.authorityLevel
    && d.supersedes == t.supersedes && d.validFrom == t.validFrom && d.validTo == t.validTo
    && d.decayRate == rate
    && d.provenance == [] && d.authorityChain == [] && d.weightsHash == "" && d.artifactHash == ""
    && Validate(d) == Ok(d)
  }

  lemma NextBounds(score: real, rate: real, floor: real)
    requires 0.0 <= score < 1.0 && 0.0 <= rate <= 1.0 && floor < 1.0
    ensures 0.0 <= NextScore(score, rate, floor) < 1.0
    ensures NextScore(score, rate, floor) <= score <==> floor <= score
    ensures floor <= NextScore(score, rate, floor)
  {
    Shrinks(score, 1.0 - rate);
  }

  lemma RescoredOk(t: TrustContext, score: real, rate: real)
    requires Validate(t).Ok? && 0.0 <= score < 1.0 && rate >= 0.0
    ensures var d := Rescored(Validate(t).value, score, rate);
            d.Ok? && d.value.score == score && DecayedFrom(t, d.value, rate, 1)
  {
    KeepAgain(t.evidenceIds);
  }

  /** One decay of a valid context always succeeds below 1. */
  lemma DecayStep(t: TrustContext, rate: real, floor: real)
    requires Validate(t).Ok? && 0.0 <= rate <= 1.0 && floor < 1.0
    ensures var d := Decay(t, rate, floor);
            d.Ok? && d.value.score == NextScore(t.score, rate, floor) && DecayedFrom(t, d.value, rate, 1)
  {
    NextBounds(t.score, rate, floor);
    RescoredOk(t, NextScore(t.score, rate, floor), rate);
  }

  lemma DecayedTwice(t: TrustContext, d: TrustContext, e: TrustContext, rate: real, n: nat)
    requires DecayedFrom(t, d, rate, n) && DecayedFrom(d, e, rate, 1)
    ensures DecayedFrom(t, e, rate, n + 1)
  {
    KeepAgain(t.evidenceIds);
  }

  function IterScore(score: real, rate: real, floor: real, n: nat): real {
    if n == 0 then score else NextScore(IterScore(score, rate, floor, n - 1), rate, floor)
  }

  lemma {:induction false} IterIsClosed(score: real, rate: real, floor: real, n: nat)
    requires 0.0 <= score && 0.0 <= rate <= 1.0 && n >= 1
    ensures IterScore(score, rate, floor, n) == ClosedScore(score, rate, floor, n)
  {
    if n == 1 {
      assert IterScore(score, rate, floor, 0) == score;
      ClosedScoreFirst(score, rate, floor);
    } else {
      IterIsClosed(score, rate, floor, n - 1);
      ClosedScoreNext(score, rate, floor, n - 1);
    }
  }

  lemma {:induction false} IterFalls(score: real, rate: real, floor: real, m: nat, n: nat)
    requires 0.0 <= score < 1.0 && 0.0 <= rate <= 1.0 && floor <= score && m <= n
    ensures floor <= IterScore(score, rate, floor, n) <= IterScore(score, rate, floor, m)
    ensures 0.0 <= IterScore(score, rate, floor, n) < 1.0
    decreases n
  {
    if n > 0 {
      IterFalls(score, rate, floor, if m < n then m else n - 1, n - 1);
      NextBounds(IterScore(score, rate, floor, n - 1), rate, floor);
    }
  }

  /** `n` decays succeed with the iterated score, and what they leave is decayed from `t`. */
  predicate Decays(t: TrustContext, rate: real, floor: real, n: nat) {
    var d := DecayTimes(t, rate, floor, n);
    d.Ok? && d.value.score == IterScore(t.score, rate, floor, n) && DecayedFrom(t, d.value, rate, n)
  }

  lemma DecaysFirst(t: TrustContext, rate: real, floor: real)
    requires Validate(t).Ok? && 0.0 <= rate <= 1.0 && floor < 1.0
    ensures Decays(t, rate, floor, 1)
  {
    DecayStep(t, rate, floor);
    assert DecayTimes(t, rate, floor, 0) == Ok(t) && IterScore(t.score, rate, floor, 0) == t.score;
  }

  lemma DecaysNext(t: TrustContext, rate: real, floor: real, n: nat)
    requires n >= 1 && Decays(t, rate, floor, n - 1) && 0.0 <= rate <= 1.0 && floor < 1.0
    ensures Decays(t, rate, floor, n)
  {
    var d := DecayTimes(t, rate, floor, n - 1).value;
    DecayStep(d, rate, floor);
    DecayedTwice(t, d, Decay(d, rate, floor).value, rate, n - 1);
  }

  lemma {:induction false} DecayIterates(t: TrustContext, rate: real, floor: real, n: nat)
    requires Validate(t).Ok? && 0.0 <= rate <= 1.0 && floor < 1.0 && n >= 1
    ensures Decays(t, rate, floor, n)
  {
    if n == 1 {
      DecaysFirst(t, rate, floor);
    } else {
      DecayIterates(t, rate, floor, n - 1);
      DecaysNext(t, rate, floor, n);
    }
  }

  /** `n` decays in closed form: the score is max(floor, s(1-r)^n), the revision has gone up by n. */
  lemma DecayClosedForm(t: TrustContext, rate: real, floor: real, n: nat)
    requires Validate(t).Ok? && 0.0 <= rate <= 1.0 && floor < 1.0 && n >= 1
    ensures var d := DecayTimes(t, rate, floor, n);
            d.Ok? && d.value.score == ClosedScore(t.score, rate, floor, n) && DecayedFrom(t, d.value, rate, n)
  {
    DecayIterates(t, rate, floor, n);
    IterIsClosed(t.score, rate, floor, n);
  }

  // ---- routing ----

  datatype TierWeight = TierWeight(tier: string, weight: real)

  /** `{item.tier: item.weight ...}.get("trust", 0.3)`: the last entry for the tier wins. */
  function TrustWeight(ws: seq<TierWeight>): real {
    if ws == [] then 0.3
    else if ws[|ws| - 1].tier == "trust" then ws[|ws| - 1].weight
    else TrustWeight(ws[..|ws| - 1])
  }

  function Contribution(t: TrustContext, ws: seq<TierWeight>): real {
    Weighted(TrustWeight(ws), t)
  }

  function Weighted(w: real, t: TrustContext): real {
    if t.band == "high" then w * (0.5 + t.score / 2.0)
    else if t.band == "medium" then w * t.score
    else -w * (1.0 - t.score)
  }

  function BandRank(band: string): nat {
    if band == "high" then 2 else if band == "medium" then 1 else 0
  }

  function Factor(t: TrustContext): real {
    if t.band == "high" then 0.5 + t.score / 2.0
    else if t.band == "medium" then t.score
    else -(1.0 - t.score)
  }

  lemma FactorMonotone(a: TrustContext, b: TrustContext)
    requires 0.0 <= a.score <= b.score < 1.0 && a.band == Band(a.score) && b.band == Band(b.score)
    ensures BandRank(a.band) <= BandRank(b.band) && Factor(a) <= Factor(b)
  {
  }

  /** A higher score never gets a lower band or, for a non-negative weight, a lower contribution. */
  lemma ContributionMonotone(a: TrustContext, b: TrustContext, ws: seq<TierWeight>)
    requires 0.0 <= a.score <= b.score < 1.0 && a.band == Band(a.score) && b.band == Band(b.score)
    requires TrustWeight(ws) >= 0.0
    ensures BandRank(a.band) <= BandRank(b.band)
    ensures Contribution(a, ws) <= Contribution(b, ws)
  {
    FactorMonotone(a, b);
    var w, x, y := TrustWeight(ws), Factor(a), Factor(b);
    WeightedScales(w, a, x);
    WeightedScales(w, b, y);
    Scale(w, x, y);
  }

  lemma WeightedScales(w: real, t: TrustContext, x: real)
    requires x == Factor(t)
    ensures Weighted(w, t) == w * x
  {
    if t.band != "high" && t.band != "medium" { Opposite(w, 1.0 - t.score); }
  }

  lemma Opposite(w: real, x: real)
    ensures -w * x == w * -x
  {
  }

  lemma Scale(w: real, x: real, y: real)
    requires w >= 0.0 && x <= y
    ensures w * x <= w * y
  {
    var d := y - x;
    assert w * d >= 0.0;
    assert w * y == w * (x + d) == w * x + w * d;
  }

  /** One decay leaves the score no higher exactly when the floor is not above the score. */
  lemma DecayFallsIff(t: TrustContext, rate: real, floor: real)
    requires Validate(t).Ok? && 0.0 <= rate <= 1.0 && floor < 1.0
    ensures var d := Decay(t, rate, floor); d.Ok? && (d.value.score <= t.score <==> floor <= t.score)
  {
    DecayStep(t, rate, floor);
    NextBounds(t.score, rate, floor);
  }

  /** Along any number of decays with the floor not above the score, score, band and contribution to
      routing never rise, from one decay to any later one. */
  lemma {:induction false} DecayNeverRises(t: TrustContext, rate: real, floor: real, m: nat, n: nat,
                                           ws: seq<TierWeight>)
    requires Validate(t) == Ok(t) && 0.0 <= rate <= 1.0 && floor <= t.score && m <= n && TrustWeight(ws) >= 0.0
    ensures var a, b := DecayTimes(t, rate, floor, m), DecayTimes(t, rate, floor, n);
      && a.Ok? && b.Ok?
      && BandRank(b.value.band) <= BandRank(a.value.band)
      && Contribution(b.value, ws) <= Contribution(a.value, ws)
  {
    IterFalls(t.score, rate, floor, m, n);
    StaysValid(t, rate, floor, m);
    StaysValid(t, rate, floor, n);
    ContributionMonotone(DecayTimes(t, rate, floor, n).value, DecayTimes(t, rate, floor, m).value, ws);
  }

  lemma StaysValid(t: TrustContext, rate: real, floor: real, n: nat)
    requires Validate(t) == Ok(t) && 0.0 <= rate <= 1.0 && floor < 1.0
    ensures var d := DecayTimes(t, rate, floor, n);
      && d.Ok?
      && Validate(d.value) == Ok(d.value)
      && d.value.band == Band(d.value.score)
      && 0.0 <= d.value.score < 1.0
      && d.value.score == IterScore(t.score, rate, floor, n)
  {
    if n > 0 { DecayIterates(t, rate, floor, n); }
  }
}
