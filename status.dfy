/** The decision rule: validation errors reject, a low-risk small claim is
    settled, high fraud risk rejects, and everything else goes to an adjuster.
    The payout is the amount above the deductible, capped by the coverage
    limit, with JavaScript's NaN propagation through `Math.max`/`Math.min`. */
module StatusRules {
  import opened Js
  import opened Claims

  const ValidationErrorsReason := "Validation errors"
  const AutoApprovedReason := "Auto-approved: low risk, low amount"
  const HighRiskReason := "High fraud risk"
  const AdjusterReason := "Queued for adjuster review"

  /** `validation.some((v) => v.severity === 'error')`. */
  predicate HasErrors(validation: seq<Issue>)
  {
    exists i :: 0 <= i < |validation| && validation[i].severity == Error
  }

  /** The deductible when it is a number (NaN included), else 0. */
  function Deductible(policy: Option<Policy>): Number
  {
    if policy.Some? && policy.value.deductible.Some? then policy.value.deductible.value else Num(0)
  }

  /** `Math.max(0, claim.amount - deductible)`. */
  function Base(claim: Claim, policy: Option<Policy>): Number
  {
    Max(Num(0), Minus(claim.amount, Deductible(policy)))
  }

  /** `policy?.coverageLimit ?? base`. */
  function Cap(claim: Claim, policy: Option<Policy>): Number
  {
    if policy.Some? && policy.value.coverageLimit.Some? then policy.value.coverageLimit.value else Base(claim, policy)
  }

  /** `Math.min(base, cap)`. */
  function Payout(claim: Claim, policy: Option<Policy>): Number
  {
    Min(Base(claim, policy), Cap(claim, policy))
  }

  /** `decide`: the status, reason and payout of a claim. */
  function Decide(validation: seq<Issue>, fraud: FraudAssessment, claim: Claim, policy: Option<Policy>): (d: Decision)
    ensures HasErrors(validation) ==> d == Decision(Rejected, ValidationErrorsReason, Num(0))
    ensures d.status == Settled <==> !HasErrors(validation) && fraud.risk == Low && AtMost(claim.amount, 1000)
    ensures d.status == Rejected <==> HasErrors(validation) || fraud.risk == High
    ensures d.status == Processing <==> !HasErrors(validation) && fraud.risk != High
                                        && !(fraud.risk == Low && AtMost(claim.amount, 1000))
    ensures d.status == Rejected ==> d.payout == Num(0)
    ensures d.status != Rejected ==> d.payout == Payout(claim, policy)
    ensures !HasErrors(validation) && fraud.risk == High ==> d.reason == HighRiskReason
    ensures d.status == Settled ==> d.reason == AutoApprovedReason
    ensures d.status == Processing ==> d.reason == AdjusterReason
  {
    if HasErrors(validation) then Decision(Rejected, ValidationErrorsReason, Num(0))
    else
      var payout := Payout(claim, policy);
      if fraud.risk == Low && AtMost(claim.amount, 1000) then Decision(Settled, AutoApprovedReason, payout)
      else if fraud.risk == High then Decision(Rejected, HighRiskReason, Num(0))
      else Decision(Processing, AdjusterReason, payout)
  }

  /** Appending warnings never changes the decision: only errors are looked for,
      so warnings alone never reject. */
  lemma {:induction false} WarningsNeverReject(v1: seq<Issue>, v2: seq<Issue>, fraud: FraudAssessment, claim: Claim, policy: Option<Policy>)
    requires forall i :: 0 <= i < |v2| ==> v2[i].severity == Warning
    ensures Decide(v1 + v2, fraud, claim, policy) == Decide(v1, fraud, claim, policy)
  {
    var v := v1 + v2;
    if HasErrors(v) {
      var i :| 0 <= i < |v| && v[i].severity == Error;
      assert i < |v1| && v1[i] == v[i];
    }
    if HasErrors(v1) {
      var i :| 0 <= i < |v1| && v1[i].severity == Error;
      assert v[i] == v1[i];
    }
  }

  /** With a numeric amount, deductible (or none) and limit (or none), the payout
      is `min(max(0, amount - deductible), limit)`. */
  lemma PayoutFormula(claim: Claim, policy: Option<Policy>, amount: int, deductible: int, limit: Option<int>)
    requires claim.amount == Some(Num(amount))
    requires Deductible(policy) == Num(deductible)
    requires policy.Some? && policy.value.coverageLimit == (if limit.Some? then Some(Num(limit.value)) else None)
    ensures var base := if amount - deductible > 0 then amount - deductible else 0;
      Payout(claim, policy) == Num(if limit.Some? && limit.value < base then limit.value else base)
  {
  }

  /** A non-negative or absent limit never gives a negative payout; the payout is
      NaN exactly when the amount, the deductible or the limit is not a number. */
  lemma PayoutNonNegative(claim: Claim, policy: Option<Policy>)
    requires policy.None? || policy.value.coverageLimit.None?
          || (policy.value.coverageLimit.value.Num? && policy.value.coverageLimit.value.value >= 0)
    ensures Payout(claim, policy).Num? ==> Payout(claim, policy).value >= 0
    ensures Payout(claim, policy).NaN? <==> !(claim.amount.Some? && claim.amount.value.Num? && Deductible(policy).Num?)
  {
  }

  /** A numeric payout never exceeds the amount (for a non-negative deductible)
      nor a numeric limit. */
  lemma PayoutBounded(claim: Claim, policy: Option<Policy>)
    requires Payout(claim, policy).Num?
    ensures Deductible(policy).value >= 0 ==> Payout(claim, policy).value <= claim.amount.value.value || Payout(claim, policy).value <= 0
    ensures policy.Some? && policy.value.coverageLimit.Some? ==> Payout(claim, policy).value <= policy.value.coverageLimit.value.value
  {
  }
}
