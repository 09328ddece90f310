/** The claim validator: an ordered list of issues, one check after another,
    ending with a search of the claimant's history for a likely duplicate. */
module ValidationRules {
  import opened Js
  import opened Seqs
  import opened Claims

  const DayMs: nat := 24 * 60 * 60 * 1000

  /** Two incidents at most this far apart count as a potential duplicate. */
  const DuplicateWindowMs: nat := 30 * DayMs

  const MissingIdIssue := Issue(MissingId, Error, "Claim ID is missing")
  const MissingClaimantIssue := Issue(MissingClaimant, Error, "Claimant missing")
  const MissingPolicyIssue := Issue(MissingPolicy, Error, "Policy missing")
  const MissingIncidentIssue := Issue(MissingIncident, Error, "Incident details incomplete")
  const InvalidAmountIssue := Issue(InvalidAmount, Error, "Claim amount must be positive number")
  const PolicyInactiveIssue := Issue(PolicyInactive, Error, "Policy inactive or not found")
  const OutOfCoverageIssue := Issue(OutOfCoveragePeriod, Error, "Incident outside policy coverage period")
  const OverLimitIssue := Issue(OverLimit, Error, "Requested amount exceeds policy limit")

  function DuplicateIssue(dup: Claim): Issue
  {
    Issue(PotentialDuplicate, Warning, "Similar claim detected: " + Text(dup.id))
  }

  /** Position of a code in the fixed evaluation order. */
  function Rank(code: IssueCode): nat
  {
    match code
    case MissingId => 0
    case MissingClaimant => 1
    case MissingPolicy => 2
    case MissingIncident => 3
    case InvalidAmount => 4
    case PolicyInactive => 5
    case OutOfCoveragePeriod => 6
    case OverLimit => 7
    case PotentialDuplicate => 8
  }

  predicate HasCode(issues: seq<Issue>, code: IssueCode)
  {
    exists i :: 0 <= i < |issues| && issues[i].code == code
  }

  /** Codes appear in evaluation order, so each at most once. */
  predicate InCheckOrder(issues: seq<Issue>)
  {
    forall i, j :: 0 <= i < j < |issues| ==> Rank(issues[i].code) < Rank(issues[j].code)
  }

  /** Only a potential duplicate is a warning. */
  predicate SeveritiesByCode(issues: seq<Issue>)
  {
    forall i :: 0 <= i < |issues| ==>
      issues[i].severity == (if issues[i].code == PotentialDuplicate then Warning else Error)
  }

  predicate IncidentIncomplete(claim: Claim)
  {
    claim.incident.None? || !Truthy(claim.incident.value.date) || !Truthy(claim.incident.value.kind)
  }

  /** A positive number (typeof is 'number', not NaN, above zero). */
  predicate AmountValid(claim: Claim)
  {
    claim.amount.Some? && claim.amount.value.Num? && claim.amount.value.value > 0
  }

  predicate PolicyUsable(policy: Option<Policy>)
  {
    policy.Some? && policy.value.active
  }

  /** The incident, start and end dates are all given (an unparsable string
      still makes a Date object, which is truthy). A comparison with an
      invalid Date is false, so each bound that parses is compared on its
      own, and the window includes both ends. */
  predicate OutsideCoverage(claim: Claim, policy: Option<Policy>, parse: DateParser)
  {
    && Truthy(IncidentDate(claim))
    && policy.Some? && Truthy(policy.value.startDate) && Truthy(policy.value.endDate)
    && var inc := Timestamp(parse, IncidentDate(claim));
       var start := Timestamp(parse, policy.value.startDate);
       var end := Timestamp(parse, policy.value.endDate);
       inc.Some? && ((start.Some? && inc.value < start.value) || (end.Some? && inc.value > end.value))
  }

  /** The policy has a numeric limit and the amount is strictly above it. */
  predicate AboveLimit(claim: Claim, policy: Option<Policy>)
  {
    policy.Some? && policy.value.coverageLimit.Some? && Exceeds(claim.amount, policy.value.coverageLimit.value)
  }

  /** `c` is a different claim of the same claimant, policy and incident type,
      whose incident lies at most 30 days from this one (both dates valid). */
  predicate IsDuplicateOf(claim: Claim, parse: DateParser, c: Claim)
  {
    && c.claimantId == claim.claimantId
    && c.policyId == claim.policyId
    && IncidentKind(c) == IncidentKind(claim)
    && c.id != claim.id
    && WithinMs(Timestamp(parse, IncidentDate(c)), Timestamp(parse, IncidentDate(claim)), DuplicateWindowMs)
  }

  /** `Math.abs(a - b) <= limit` on two timestamps, false if either is invalid. */
  predicate WithinMs(a: Option<int>, b: Option<int>, limit: nat)
  {
    a.Some? && b.Some? && Abs(a.value - b.value) <= limit
  }

  function Duplicate(claim: Claim, history: seq<Claim>, parse: DateParser): Option<Claim>
  {
    Find(history, (c: Claim) => IsDuplicateOf(claim, parse, c))
  }

  /** The condition under which each code is reported. */
  predicate Fires(code: IssueCode, claim: Claim, policy: Option<Policy>, history: seq<Claim>, parse: DateParser)
  {
    match code
    case MissingId => !Truthy(claim.id)
    case MissingClaimant => !Truthy(claim.claimantId)
    case MissingPolicy => !Truthy(claim.policyId)
    case MissingIncident => IncidentIncomplete(claim)
    case InvalidAmount => !AmountValid(claim)
    case PolicyInactive => !PolicyUsable(policy)
    case OutOfCoveragePeriod => OutsideCoverage(claim, policy, parse)
    case OverLimit => AboveLimit(claim, policy)
    case PotentialDuplicate => exists k :: 0 <= k < |history| && IsDuplicateOf(claim, parse, history[k])
  }

  /** `if (cond) issues.push(issue)`. */
  function Push(issues: seq<Issue>, cond: bool, issue: Issue): seq<Issue>
  {
    if cond then issues + [issue] else issues
  }

  /** Pushes the duplicate warning when a duplicate was found. */
  function PushDuplicate(issues: seq<Issue>, dup: Option<Claim>): seq<Issue>
  {
    if dup.Some? then issues + [DuplicateIssue(dup.value)] else issues
  }

  /** The issues of the eight field checks, given whether each one fails. */
  function FieldIssues(missingId: bool, missingClaimant: bool, missingPolicy: bool, incomplete: bool,
                       badAmount: bool, inactive: bool, outside: bool, overLimit: bool): seq<Issue>
  {
    var issues := Push([], missingId, MissingIdIssue);
    var issues := Push(issues, missingClaimant, MissingClaimantIssue);
    var issues := Push(issues, missingPolicy, MissingPolicyIssue);
    var issues := Push(issues, incomplete, MissingIncidentIssue);
    var issues := Push(issues, badAmount, InvalidAmountIssue);
    var issues := Push(issues, inactive, PolicyInactiveIssue);
    var issues := Push(issues, outside, OutOfCoverageIssue);
    Push(issues, overLimit, OverLimitIssue)
  }

  /** The issues the eight field checks of `validateClaim` push. */
  function FieldChecks(claim: Claim, policy: Option<Policy>, parse: DateParser): seq<Issue>
  {
    FieldIssues(!Truthy(claim.id), !Truthy(claim.claimantId), !Truthy(claim.policyId), IncidentIncomplete(claim),
                !AmountValid(claim), !PolicyUsable(policy), OutsideCoverage(claim, policy, parse), AboveLimit(claim, policy))
  }

  /** The issues `validateClaim` reports: the field checks, then the duplicate search. */
  function Validation(claim: Claim, person: Option<Person>, policy: Option<Policy>, history: seq<Claim>, parse: DateParser): seq<Issue>
  {
    PushDuplicate(FieldChecks(claim, policy, parse), Duplicate(claim, history, parse))
  }

  /** One `if (cond) issues.push(issue)` step of `validateClaim`. */
  method PushIf(issues: seq<Issue>, cond: bool, issue: Issue) returns (r: seq<Issue>)
    ensures r == Push(issues, cond, issue)
  {
    r := issues;
    if cond {
      r := r + [issue];
    }
  }

  /** The eight field checks of `validateClaim`, pushed in order onto an
      initially empty list. */
  method CheckFields(claim: Claim, policy: Option<Policy>, parse: DateParser) returns (issues: seq<Issue>)
    ensures issues == FieldChecks(claim, policy, parse)
  {
    issues := [];
    issues := PushIf(issues, !Truthy(claim.id), MissingIdIssue);
    issues := PushIf(issues, !Truthy(claim.claimantId), MissingClaimantIssue);
    issues := PushIf(issues, !Truthy(claim.policyId), MissingPolicyIssue);
    issues := PushIf(issues, IncidentIncomplete(claim), MissingIncidentIssue);
    issues := PushIf(issues, !AmountValid(claim), InvalidAmountIssue);
    issues := PushIf(issues, !PolicyUsable(policy), PolicyInactiveIssue);
    issues := PushIf(issues, OutsideCoverage(claim, policy, parse), OutOfCoverageIssue);
    issues := PushIf(issues, AboveLimit(claim, policy), OverLimitIssue);
  }

  /** `validateClaim`: the field checks, then the duplicate warning when the
      history holds a likely duplicate. */
  method ValidateClaim(claim: Claim, person: Option<Person>, policy: Option<Policy>, history: seq<Claim>, parse: DateParser)
    returns (issues: seq<Issue>)
    ensures issues == Validation(claim, person, policy, history, parse)
  {
    issues := CheckFields(claim, policy, parse);
    var dup := Duplicate(claim, history, parse);
    if dup.Some? { issues := issues + [DuplicateIssue(dup.value)]; }
  }

  /** Every issue has a rank below `r`. */
  predicate RanksBelow(issues: seq<Issue>, r: nat)
  {
    forall i :: 0 <= i < |issues| ==> Rank(issues[i].code) < r
  }

  /** A conditional push adds its own code, if anything. */
  lemma PushHasCode(a: seq<Issue>, cond: bool, issue: Issue, code: IssueCode)
    ensures HasCode(Push(a, cond, issue), code) <==> HasCode(a, code) || (cond && issue.code == code)
  {
    var b := Push(a, cond, issue);
    if HasCode(b, code) {
      var i :| 0 <= i < |b| && b[i].code == code;
      if i < |a| { assert a[i] == b[i]; }
    }
    if HasCode(a, code) {
      var i :| 0 <= i < |a| && a[i].code == code;
      assert b[i] == a[i];
    }
    if cond && issue.code == code {
      assert b[|a|] == issue;
    }
  }

  /** Pushing an issue ranked above all present ones keeps the check order. */
  lemma PushInOrder(a: seq<Issue>, cond: bool, issue: Issue)
    requires InCheckOrder(a) && RanksBelow(a, Rank(issue.code))
    requires SeveritiesByCode(a) && issue.severity == (if issue.code == PotentialDuplicate then Warning else Error)
    ensures InCheckOrder(Push(a, cond, issue)) && RanksBelow(Push(a, cond, issue), Rank(issue.code) + 1)
    ensures SeveritiesByCode(Push(a, cond, issue))
  {
    var b := Push(a, cond, issue);
    assert forall i :: 0 <= i < |a| ==> b[i] == a[i];
  }

  /** Four consecutive checks of error severity keep the check order. */
  lemma PushFourInOrder(a: seq<Issue>, c0: bool, i0: Issue, c1: bool, i1: Issue, c2: bool, i2: Issue, c3: bool, i3: Issue)
    requires InCheckOrder(a) && RanksBelow(a, Rank(i0.code)) && SeveritiesByCode(a)
    requires Rank(i1.code) == Rank(i0.code) + 1 && Rank(i2.code) == Rank(i0.code) + 2 && Rank(i3.code) == Rank(i0.code) + 3
    requires i0.severity == i1.severity == i2.severity == i3.severity == Error && i3.code != PotentialDuplicate
    ensures var r := Push(Push(Push(Push(a, c0, i0), c1, i1), c2, i2), c3, i3);
      InCheckOrder(r) && RanksBelow(r, Rank(i3.code) + 1) && SeveritiesByCode(r)
  {
    PushInOrder(a, c0, i0);
    PushInOrder(Push(a, c0, i0), c1, i1);
    PushInOrder(Push(Push(a, c0, i0), c1, i1), c2, i2);
    PushInOrder(Push(Push(Push(a, c0, i0), c1, i1), c2, i2), c3, i3);
  }

  /** The field checks report in check order, with error severity. */
  lemma FieldIssuesInOrder(c0: bool, c1: bool, c2: bool, c3: bool, c4: bool, c5: bool, c6: bool, c7: bool)
    ensures var issues := FieldIssues(c0, c1, c2, c3, c4, c5, c6, c7);
      InCheckOrder(issues) && RanksBelow(issues, 8) && SeveritiesByCode(issues)
  {
    PushFourInOrder([], c0, MissingIdIssue, c1, MissingClaimantIssue, c2, MissingPolicyIssue, c3, MissingIncidentIssue);
    var half := Push(Push(Push(Push([], c0, MissingIdIssue), c1, MissingClaimantIssue), c2, MissingPolicyIssue), c3, MissingIncidentIssue);
    PushFourInOrder(half, c4, InvalidAmountIssue, c5, PolicyInactiveIssue, c6, OutOfCoverageIssue, c7, OverLimitIssue);
  }

  /** Whether the field check with this code fails, given each check's outcome. */
  predicate FieldFails(code: IssueCode, c0: bool, c1: bool, c2: bool, c3: bool, c4: bool, c5: bool, c6: bool, c7: bool)
  {
    match code
    case MissingId => c0
    case MissingClaimant => c1
    case MissingPolicy => c2
    case MissingIncident => c3
    case InvalidAmount => c4
    case PolicyInactive => c5
    case OutOfCoveragePeriod => c6
    case OverLimit => c7
    case PotentialDuplicate => false
  }

  /** A field check's code is reported exactly when that check fails. */
  lemma FieldIssuesHasCode(c0: bool, c1: bool, c2: bool, c3: bool, c4: bool, c5: bool, c6: bool, c7: bool, code: IssueCode)
    ensures HasCode(FieldIssues(c0, c1, c2, c3, c4, c5, c6, c7), code)
        <==> FieldFails(code, c0, c1, c2, c3, c4, c5, c6, c7)
  {
    var v0 := Push([], c0, MissingIdIssue);
    PushHasCode([], c0, MissingIdIssue, code);
    var v1 := Push(v0, c1, MissingClaimantIssue);
    PushHasCode(v0, c1, MissingClaimantIssue, code);
    var v2 := Push(v1, c2, MissingPolicyIssue);
    PushHasCode(v1, c2, MissingPolicyIssue, code);
    var v3 := Push(v2, c3, MissingIncidentIssue);
    PushHasCode(v2, c3, MissingIncidentIssue, code);
    var v4 := Push(v3, c4, InvalidAmountIssue);
    PushHasCode(v3, c4, InvalidAmountIssue, code);
    var v5 := Push(v4, c5, PolicyInactiveIssue);
    PushHasCode(v4, c5, PolicyInactiveIssue, code);
    var v6 := Push(v5, c6, OutOfCoverageIssue);
    PushHasCode(v5, c6, OutOfCoverageIssue, code);
    PushHasCode(v6, c7, OverLimitIssue, code);
  }

  /** The duplicate warning comes after every field check. */
  lemma PushDuplicateInOrder(a: seq<Issue>, dup: Option<Claim>)
    requires InCheckOrder(a) && RanksBelow(a, 8) && SeveritiesByCode(a)
    ensures InCheckOrder(PushDuplicate(a, dup)) && SeveritiesByCode(PushDuplicate(a, dup))
  {
    if dup.Some? {
      PushInOrder(a, true, DuplicateIssue(dup.value));
    }
  }

  /** The duplicate warning is reported exactly when a duplicate was found. */
  lemma PushDuplicateHasCode(a: seq<Issue>, dup: Option<Claim>, code: IssueCode)
    ensures HasCode(PushDuplicate(a, dup), code) <==> HasCode(a, code) || (dup.Some? && code == PotentialDuplicate)
  {
    if dup.Some? {
      PushHasCode(a, true, DuplicateIssue(dup.value), code);
    }
  }

  /** A duplicate is found exactly when some history claim is one. */
  lemma DuplicateFound(claim: Claim, history: seq<Claim>, parse: DateParser)
    ensures Duplicate(claim, history, parse).Some? <==> exists k :: 0 <= k < |history| && IsDuplicateOf(claim, parse, history[k])
  {
    var p := (c: Claim) => IsDuplicateOf(claim, parse, c);
    FindSpec(history, p);
    assert forall k :: 0 <= k < |history| ==> (p(history[k]) <==> IsDuplicateOf(claim, parse, history[k]));
  }

  /** The issues come in check order, so each code at most once, and only a
      potential duplicate is a warning. */
  lemma ValidationInOrder(claim: Claim, person: Option<Person>, policy: Option<Policy>, history: seq<Claim>, parse: DateParser)
    ensures InCheckOrder(Validation(claim, person, policy, history, parse))
    ensures SeveritiesByCode(Validation(claim, person, policy, history, parse))
  {
    FieldIssuesInOrder(!Truthy(claim.id), !Truthy(claim.claimantId), !Truthy(claim.policyId), IncidentIncomplete(claim),
                       !AmountValid(claim), !PolicyUsable(policy), OutsideCoverage(claim, policy, parse), AboveLimit(claim, policy));
    PushDuplicateInOrder(FieldChecks(claim, policy, parse), Duplicate(claim, history, parse));
  }

  /** A code is reported exactly when its check fires. */
  lemma ValidationReports(claim: Claim, person: Option<Person>, policy: Option<Policy>, history: seq<Claim>, parse: DateParser, code: IssueCode)
    ensures HasCode(Validation(claim, person, policy, history, parse), code) <==> Fires(code, claim, policy, history, parse)
  {
    FieldIssuesHasCode(!Truthy(claim.id), !Truthy(claim.claimantId), !Truthy(claim.policyId), IncidentIncomplete(claim),
                       !AmountValid(claim), !PolicyUsable(policy), OutsideCoverage(claim, policy, parse), AboveLimit(claim, policy), code);
    PushDuplicateHasCode(FieldChecks(claim, policy, parse), Duplicate(claim, history, parse), code);
    if code == PotentialDuplicate {
      DuplicateFound(claim, history, parse);
    }
  }

  /** The duplicate warning names the first matching history claim. */
  lemma DuplicateNamesFirstMatch(claim: Claim, person: Option<Person>, policy: Option<Policy>, history: seq<Claim>, parse: DateParser, k: nat)
    requires k < |history| && IsDuplicateOf(claim, parse, history[k])
    requires forall j :: 0 <= j < k ==> !IsDuplicateOf(claim, parse, history[j])
    ensures var issues := Validation(claim, person, policy, history, parse);
      |issues| > 0 && issues[|issues| - 1] == DuplicateIssue(history[k])
  {
    var p := (c: Claim) => IsDuplicateOf(claim, parse, c);
    assert p(history[k]);
    var i := FirstIndex(history, p);
    assert i >= k;
  }

  /** An incident on the first or last day of cover is inside the window. */
  lemma CoverageIncludesBounds(claim: Claim, policy: Policy, parse: DateParser)
    requires Truthy(IncidentDate(claim)) && Truthy(policy.startDate) && Truthy(policy.endDate)
    requires Timestamp(parse, policy.startDate).Some? && Timestamp(parse, policy.endDate).Some?
    requires Timestamp(parse, policy.startDate).value <= Timestamp(parse, policy.endDate).value
    requires Timestamp(parse, IncidentDate(claim)) == Timestamp(parse, policy.startDate)
          || Timestamp(parse, IncidentDate(claim)) == Timestamp(parse, policy.endDate)
    ensures !OutsideCoverage(claim, Some(policy), parse)
  {
  }

  /** One unparsable bound does not switch the check off: the other bound
      is still compared. */
  lemma CoverageCheckedAgainstParsableBound(claim: Claim, policy: Policy, parse: DateParser)
    requires Truthy(IncidentDate(claim)) && Truthy(policy.startDate) && Truthy(policy.endDate)
    requires Timestamp(parse, IncidentDate(claim)).Some?
    ensures Timestamp(parse, policy.startDate).Some?
            && Timestamp(parse, IncidentDate(claim)).value < Timestamp(parse, policy.startDate).value
            ==> OutsideCoverage(claim, Some(policy), parse)
    ensures Timestamp(parse, policy.endDate).Some?
            && Timestamp(parse, IncidentDate(claim)).value > Timestamp(parse, policy.endDate).value
            ==> OutsideCoverage(claim, Some(policy), parse)
  {
  }

  /** An incident date that does not parse is never out of coverage. */
  lemma UnparsableIncidentInCover(claim: Claim, policy: Option<Policy>, parse: DateParser)
    requires Timestamp(parse, IncidentDate(claim)).None?
    ensures !OutsideCoverage(claim, policy, parse)
  {
  }

  /** An incomplete incident is reported by exactly one issue. */
  lemma IncompleteIncidentReportedOnce(claim: Claim, person: Option<Person>, policy: Option<Policy>, history: seq<Claim>, parse: DateParser)
    requires IncidentIncomplete(claim)
    ensures var issues := Validation(claim, person, policy, history, parse);
      exists i :: 0 <= i < |issues| && issues[i].code == MissingIncident
        && forall j :: 0 <= j < |issues| && j != i ==> issues[j].code != MissingIncident
  {
    var issues := Validation(claim, person, policy, history, parse);
    ValidationInOrder(claim, person, policy, history, parse);
    ValidationReports(claim, person, policy, history, parse, MissingIncident);
    var i :| 0 <= i < |issues| && issues[i].code == MissingIncident;
    forall j | 0 <= j < |issues| && j != i ensures issues[j].code != MissingIncident {
      if j < i { assert Rank(issues[j].code) < Rank(issues[i].code); }
      else { assert Rank(issues[i].code) < Rank(issues[j].code); }
    }
  }
}
