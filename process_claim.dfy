/** `processClaim`: load the three collections once, pick the claim, its
    claimant, its policy and the claimant's history, run the three rule
    engines on that snapshot, and merge the results into the stored claim.
    The notifications sent afterwards are not part of this model. */
module ProcessClaim {
  import opened Js
  import opened Seqs
  import opened Claims
  import opened FileDb
  import opened ValidationRules
  import opened FraudRules
  import opened StatusRules

  /** `claims.find((c) => c.id === claimId)`. */
  function ClaimById(claims: seq<Claim>, id: Option<string>): Option<Claim>
  {
    Find(claims, (c: Claim) => c.id == id)
  }

  /** `persons.find((p) => p.id === claim.claimantId)`. */
  function ClaimantOf(persons: seq<Person>, claim: Claim): Option<Person>
  {
    Find(persons, (p: Person) => p.id == claim.claimantId)
  }

  /** `policies.find((p) => p.id === claim.policyId)`. */
  function PolicyOf(policies: seq<Policy>, claim: Claim): Option<Policy>
  {
    Find(policies, (p: Policy) => p.id == claim.policyId)
  }

  /** `claims.filter((c) => c.claimantId === claim.claimantId)`. */
  function HistoryOf(claims: seq<Claim>, claim: Claim): seq<Claim>
  {
    Filter(claims, (c: Claim) => c.claimantId == claim.claimantId)
  }

  /** The three rule results for one claim. */
  datatype Verdict = Verdict(validation: seq<Issue>, fraud: FraudAssessment, decision: Decision)

  /** The rule results for `claim` against one snapshot of the store, with
      `decide` fed exactly that validation and fraud assessment. */
  function Evaluate(claim: Claim, claims: seq<Claim>, persons: seq<Person>, policies: seq<Policy>, parse: DateParser): Verdict
  {
    var person := ClaimantOf(persons, claim);
    var policy := PolicyOf(policies, claim);
    var history := HistoryOf(claims, claim);
    var validation := Validation(claim, person, policy, history, parse);
    var fraud := Assess(claim, history, parse);
    Verdict(validation, fraud, Decide(validation, fraud, claim, policy))
  }

  /** Equal in every field the processing step does not write. */
  predicate SameFacts(a: Claim, b: Claim)
  {
    && a.id == b.id && a.claimantId == b.claimantId && a.policyId == b.policyId
    && a.incident == b.incident && a.amount == b.amount && a.attachments == b.attachments
    && a.channel == b.channel && a.flags == b.flags && a.createdAt == b.createdAt
  }

  /** The updater `(c) => ({ ...c, status, decision, fraud, validation, updatedAt })`. */
  function Merge(c: Claim, v: Verdict, now: string): (r: Claim)
    ensures SameFacts(c, r)
    ensures r.status == Some(StatusName(v.decision.status)) && r.decision == Some(v.decision)
    ensures r.fraud == Some(v.fraud) && r.validation == Some(v.validation) && r.updatedAt == Some(now)
  {
    c.(status := Some(StatusName(v.decision.status)), decision := Some(v.decision), fraud := Some(v.fraud),
       validation := Some(v.validation), updatedAt := Some(now))
  }

  /** Lines 24-30 of `processClaim`: the selection and the three rule engines,
      run on one snapshot. */
  method RunRules(claim: Claim, claims: seq<Claim>, persons: seq<Person>, policies: seq<Policy>, parse: DateParser)
    returns (verdict: Verdict)
    ensures verdict == Evaluate(claim, claims, persons, policies, parse)
  {
    var person := ClaimantOf(persons, claim);
    var policy := PolicyOf(policies, claim);
    var history := HistoryOf(claims, claim);
    var validation := ValidateClaim(claim, person, policy, history, parse);
    var fraud := FraudScore(claim, history, parse);
    var decision := Decide(validation, fraud, claim, policy);
    verdict := Verdict(validation, fraud, decision);
  }

  /** `processClaim(claimId)`, with `now` standing for `new Date().toISOString()`.
      An unknown id writes nothing and yields `null`; otherwise the first claim
      with that id is replaced by its merged record, which is returned. */
  method ProcessClaim(claimsDb: JsonFile<Claim>, personsDb: JsonFile<Person>, policiesDb: JsonFile<Policy>,
                      claimId: Option<string>, parse: DateParser, now: string)
    returns (updated: Option<Claim>)
    requires forall c: Claim :: claimsDb.key(c) == c.id
    modifies claimsDb
    ensures var s := old(claimsDb.Contents());
      updated.None? <==> forall i :: 0 <= i < |s| ==> s[i].id != claimId
    ensures updated.None? ==> claimsDb.data == old(claimsDb.data)
    ensures updated.Some? ==>
      var s := old(claimsDb.Contents());
      var k := FirstIndex(s, (c: Claim) => c.id == claimId);
      0 <= k < |s|
      && updated.value == Merge(s[k], Evaluate(s[k], s, old(personsDb.Contents()), old(policiesDb.Contents()), parse), now)
      && claimsDb.data == Some(s[k := updated.value])
  {
    var claims := claimsDb.ReadJson([]);
    var persons := personsDb.ReadJson([]);
    var policies := policiesDb.ReadJson([]);
    var found := ClaimById(claims, claimId);
    if found.None? {
      return None;
    }
    var claim := found.value;
    var verdict := RunRules(claim, claims, persons, policies, parse);
    updated := StoreVerdict(claimsDb, claim.id, verdict, now);
  }

  /** Lines 32-39 of `processClaim`: `updateById` with the merging updater.
      It replaces the first claim with that id, when there is one. */
  method StoreVerdict(claimsDb: JsonFile<Claim>, id: Option<string>, verdict: Verdict, now: string)
    returns (updated: Option<Claim>)
    requires forall c: Claim :: claimsDb.key(c) == c.id
    modifies claimsDb
    ensures var s := old(claimsDb.Contents());
      var k := FirstIndex(s, (c: Claim) => c.id == id);
      && (updated.None? <==> k < 0)
      && (updated.None? ==> claimsDb.data == old(claimsDb.data))
      && (updated.Some? ==> 0 <= k < |s| && updated.value == Merge(s[k], verdict, now) && claimsDb.data == Some(s[k := updated.value]))
  {
    ghost var s := claimsDb.Contents();
    FirstIndexAlike(s, s, (c: Claim) => c.id == id, (x: Claim) => claimsDb.key(x) == id);
    updated := claimsDb.UpdateById(id, (c: Claim) => Merge(c, verdict, now));
  }

  /** The step the inbox watcher and the portal share: append a new claim,
      then `processClaim(claim.id)`. Processing picks the first stored claim
      with that id: the new one exactly when no earlier record has its id. */
  method AppendAndProcess(claimsDb: JsonFile<Claim>, personsDb: JsonFile<Person>, policiesDb: JsonFile<Policy>,
                          claim: Claim, parse: DateParser, now: string)
    returns (processed: Claim)
    requires forall c: Claim :: claimsDb.key(c) == c.id
    modifies claimsDb
    ensures var s := old(claimsDb.Contents());
      var s1 := s + [claim];
      var k := FirstIndex(s1, (c: Claim) => c.id == claim.id);
      && 0 <= k < |s1|
      && (k == |s| <==> forall j :: 0 <= j < |s| ==> s[j].id != claim.id)
      && processed == Merge(s1[k], Evaluate(s1[k], s1, old(personsDb.Contents()), old(policiesDb.Contents()), parse), now)
      && claimsDb.data == Some(s1[k := processed])
  {
    ghost var s := claimsDb.Contents();
    var _ := claimsDb.AppendToArray(claim);
    assert claimsDb.Contents()[|s|] == claim;
    FirstIndexSnoc(s, claim, (c: Claim) => c.id == claim.id);
    var updated := ProcessClaim(claimsDb, personsDb, policiesDb, claim.id, parse, now);
    processed := updated.value;
  }

  /** The person and policy are the first records whose id is the claim's
      `claimantId` and `policyId`; none when no record has it. */
  lemma SelectionIsFirstMatch(persons: seq<Person>, policies: seq<Policy>, claim: Claim)
    ensures ClaimantOf(persons, claim).None? <==> forall j :: 0 <= j < |persons| ==> persons[j].id != claim.claimantId
    ensures ClaimantOf(persons, claim).Some? ==>
      exists k :: 0 <= k < |persons| && persons[k] == ClaimantOf(persons, claim).value && persons[k].id == claim.claimantId
        && forall j :: 0 <= j < k ==> persons[j].id != claim.claimantId
    ensures PolicyOf(policies, claim).None? <==> forall j :: 0 <= j < |policies| ==> policies[j].id != claim.policyId
    ensures PolicyOf(policies, claim).Some? ==>
      exists k :: 0 <= k < |policies| && policies[k] == PolicyOf(policies, claim).value && policies[k].id == claim.policyId
        && forall j :: 0 <= j < k ==> policies[j].id != claim.policyId
  {
    FindSpec(persons, (p: Person) => p.id == claim.claimantId);
    FindSpec(policies, (p: Policy) => p.id == claim.policyId);
  }

  /** The history holds exactly the stored claims of the same claimant, the
      claim itself among them. */
  lemma HistoryHoldsClaimant(claims: seq<Claim>, k: nat)
    requires k < |claims|
    ensures claims[k] in HistoryOf(claims, claims[k])
    ensures forall c :: c in HistoryOf(claims, claims[k]) ==> c in claims && c.claimantId == claims[k].claimantId
  {
  }

  /** Filtering two claim lists that agree on their facts, position by
      position, by claimant gives lists that agree the same way. */
  lemma HistoryAlike(s: seq<Claim>, t: seq<Claim>, id: Option<string>)
    requires |s| == |t| && forall j :: 0 <= j < |s| ==> SameFacts(s[j], t[j])
    ensures var hs := Filter(s, (c: Claim) => c.claimantId == id);
      var ht := Filter(t, (c: Claim) => c.claimantId == id);
      |hs| == |ht| && forall j :: 0 <= j < |hs| ==> SameFacts(hs[j], ht[j])
  {
    FilterRelated(s, t, (c: Claim) => c.claimantId == id, (c: Claim) => c.claimantId == id, SameFacts);
  }

  /** Validation reads only the facts of the claim and of its history. */
  lemma ValidationAlike(c1: Claim, c2: Claim, h1: seq<Claim>, h2: seq<Claim>,
                        person: Option<Person>, policy: Option<Policy>, parse: DateParser)
    requires SameFacts(c1, c2)
    requires |h1| == |h2| && forall j :: 0 <= j < |h1| ==> SameFacts(h1[j], h2[j])
    ensures Validation(c1, person, policy, h1, parse) == Validation(c2, person, policy, h2, parse)
  {
    assert FieldChecks(c1, policy, parse) == FieldChecks(c2, policy, parse);
    FirstIndexAlike(h1, h2, (c: Claim) => IsDuplicateOf(c1, parse, c), (c: Claim) => IsDuplicateOf(c2, parse, c));
  }

  /** So does the fraud assessment. */
  lemma AssessAlike(c1: Claim, c2: Claim, h1: seq<Claim>, h2: seq<Claim>, parse: DateParser)
    requires SameFacts(c1, c2)
    requires |h1| == |h2| && forall j :: 0 <= j < |h1| ==> SameFacts(h1[j], h2[j])
    ensures Assess(c1, h1, parse) == Assess(c2, h2, parse)
  {
    FilterAlike(h1, h2, (c: Claim) => Recent(c1, parse, c), (c: Claim) => Recent(c2, parse, c));
    assert LoweredDescription(c1) == LoweredDescription(c2);
  }

  /** The rule results read only the facts of the claim and of the store. */
  lemma EvaluateAlike(c1: Claim, c2: Claim, s1: seq<Claim>, s2: seq<Claim>,
                      persons: seq<Person>, policies: seq<Policy>, parse: DateParser)
    requires SameFacts(c1, c2)
    requires |s1| == |s2| && forall j :: 0 <= j < |s1| ==> SameFacts(s1[j], s2[j])
    ensures Evaluate(c1, s1, persons, policies, parse) == Evaluate(c2, s2, persons, policies, parse)
  {
    var h1, h2 := HistoryOf(s1, c1), HistoryOf(s2, c2);
    var person, policy := ClaimantOf(persons, c1), PolicyOf(policies, c1);
    HistoryAlike(s1, s2, c1.claimantId);
    ValidationAlike(c1, c2, h1, h2, person, policy, parse);
    AssessAlike(c1, c2, h1, h2, parse);
  }

  /** Processing a claim again, after its record was merged, gives the same
      validation, fraud assessment and decision: the merge writes only fields
      the rules never read. */
  lemma ReprocessSameVerdict(s: seq<Claim>, k: nat, persons: seq<Person>, policies: seq<Policy>,
                             parse: DateParser, v: Verdict, now: string)
    requires k < |s|
    ensures var m := Merge(s[k], v, now);
      Evaluate(m, s[k := m], persons, policies, parse) == Evaluate(s[k], s, persons, policies, parse)
  {
    var m := Merge(s[k], v, now);
    EvaluateAlike(m, s[k], s[k := m], s, persons, policies, parse);
  }
}
