/** The HTTP server's own logic: portal intake of a posted claim, the claim
    and policy lookups, and the `/api/stats` totals. Routing, body parsing
    and responses are plumbing; the parsed body is a parameter. */
module Server {
  import opened Js
  import opened Text
  import opened Seqs
  import opened Claims
  import opened Parsers
  import opened FileDb
  import opened ProcessClaim

  // ---------------------------------------------------------------------
  // Portal intake

  /** `{ ...body, id: body.id || `CLM-${Date.now()}`, channel: 'portal',
      status: 'submitted', createdAt: now, updatedAt: now }`. */
  function Intake(body: Claim, at: Instant): Claim
  {
    body.(id := Some(OrDefault(body.id, GeneratedId(at.ms))), channel := Some("portal"), status := Some("submitted"),
          createdAt := Some(at.iso), updatedAt := Some(at.iso))
  }

  /** The portal channel and the submitted status replace the body's own; a
      non-empty body id is kept, any other becomes `CLM-<ms>`; the claim's
      other facts are the body's. Taking in the stored claim again keeps its
      id. */
  lemma IntakeSpec(body: Claim, at: Instant, later: Instant)
    ensures var c := Intake(body, at);
      && c.channel == Some("portal") && c.status == Some("submitted")
      && c.createdAt == Some(at.iso) && c.updatedAt == Some(at.iso)
      && Truthy(c.id)
      && (Truthy(body.id) ==> c.id == body.id)
      && (!Truthy(body.id) ==> c.id == Some(GeneratedId(at.ms)))
      && c.claimantId == body.claimantId && c.policyId == body.policyId && c.incident == body.incident
      && c.amount == body.amount && c.attachments == body.attachments && c.flags == body.flags
      && c.validation == body.validation && c.fraud == body.fraud && c.decision == body.decision
      && Intake(c, later).id == c.id
  {
    var g := GeneratedId(at.ms);
    assert |g| > 0 by { assert g == "CLM-" + NatToString(at.ms); }
  }

  /** The response to `POST /api/claims`. */
  datatype Response = Created(processed: Claim) | InvalidJson

  /** `POST /api/claims`: a body that is not JSON is refused and nothing is
      stored; otherwise the intake record is appended and `processClaim` runs
      on its id. Processing picks the first stored claim with that id, so
      when the id was already stored the earlier record is processed and
      returned, and the new one stays as submitted. */
  method PostClaim(claimsDb: JsonFile<Claim>, personsDb: JsonFile<Person>, policiesDb: JsonFile<Policy>,
                   body: Option<Claim>, parse: DateParser, at: Instant)
    returns (response: Response)
    requires forall c: Claim :: claimsDb.key(c) == c.id
    modifies claimsDb
    ensures body.None? ==> response == InvalidJson && claimsDb.data == old(claimsDb.data)
    ensures body.Some? ==>
      var s := old(claimsDb.Contents());
      var n := Intake(body.value, at);
      var s1 := s + [n];
      var k := FirstIndex(s1, (c: Claim) => c.id == n.id);
      && response.Created? && 0 <= k < |s1|
      && response.processed == Merge(s1[k], Evaluate(s1[k], s1, old(personsDb.Contents()), old(policiesDb.Contents()), parse), at.iso)
      && claimsDb.data == Some(s1[k := response.processed])
      && (k == |s| <==> forall j :: 0 <= j < |s| ==> s[j].id != n.id)
  {
    if body.None? {
      return InvalidJson;
    }
    var claim := Intake(body.value, at);
    var processed := AppendAndProcess(claimsDb, personsDb, policiesDb, claim, parse, at.iso);
    response := Created(processed);
  }

  // ---------------------------------------------------------------------
  // Lookups

  /** `GET /api/claims/<id>`: the first claim with that id, or not found. */
  function LookupClaim(claims: seq<Claim>, id: string): Option<Claim>
  {
    Find(claims, (c: Claim) => c.id == Some(id))
  }

  /** Not found exactly when no claim has the id; otherwise the claim at
      the first position holding it. */
  lemma LookupClaimSpec(claims: seq<Claim>, id: string)
    ensures LookupClaim(claims, id).None? <==> forall j :: 0 <= j < |claims| ==> claims[j].id != Some(id)
    ensures LookupClaim(claims, id).Some? ==>
      exists k :: 0 <= k < |claims| && claims[k] == LookupClaim(claims, id).value && claims[k].id == Some(id)
        && forall j :: 0 <= j < k ==> claims[j].id != Some(id)
  {
    FindSpec(claims, (c: Claim) => c.id == Some(id));
  }

  /** A policy and the person holding it. */
  datatype PolicyView = PolicyView(policy: Policy, person: Option<Person>)

  /** `p.id === id || p.policyNumber === id`. */
  predicate NamesPolicy(p: Policy, id: string)
  {
    p.id == Some(id) || p.policyNumber == Some(id)
  }

  /** `GET /api/policies/<id>`: the first policy named by the id or by its
      number, with the first person whose id is the policy's `personId`. */
  function LookupPolicy(policies: seq<Policy>, persons: seq<Person>, id: string): Option<PolicyView>
  {
    var policy := Find(policies, (p: Policy) => NamesPolicy(p, id));
    if policy.None? then None
    else Some(PolicyView(policy.value, Find(persons, (q: Person) => q.id == policy.value.personId)))
  }

  /** Not found exactly when no policy has the id or the number; otherwise
      the first such policy, with the first person of its `personId`, or
      none when no person has it. */
  lemma LookupPolicySpec(policies: seq<Policy>, persons: seq<Person>, id: string)
    ensures LookupPolicy(policies, persons, id).None? <==> forall j :: 0 <= j < |policies| ==> !NamesPolicy(policies[j], id)
    ensures LookupPolicy(policies, persons, id).Some? ==>
      var v := LookupPolicy(policies, persons, id).value;
      && (exists k :: 0 <= k < |policies| && policies[k] == v.policy && NamesPolicy(policies[k], id)
            && forall j :: 0 <= j < k ==> !NamesPolicy(policies[j], id))
      && (v.person.None? <==> forall j :: 0 <= j < |persons| ==> persons[j].id != v.policy.personId)
      && (v.person.Some? ==>
            exists k :: 0 <= k < |persons| && persons[k] == v.person.value
              && persons[k].id == v.policy.personId && forall j :: 0 <= j < k ==> persons[j].id != v.policy.personId)
  {
    var policy := Find(policies, (p: Policy) => NamesPolicy(p, id));
    FindSpec(policies, (p: Policy) => NamesPolicy(p, id));
    if policy.Some? {
      FindSpec(persons, (q: Person) => q.id == policy.value.personId);
    }
  }

  // ---------------------------------------------------------------------
  // Statistics

  /** The accumulator object of the `reduce`: property name to number. */
  type Totals = map<string, int>

  /** `acc[key] || 0`. */
  function Counter(t: Totals, key: string): int
  {
    if key in t then t[key] else 0
  }

  /** `acc[key] = (acc[key] || 0) + step`. */
  function Bump(t: Totals, key: string, step: int): Totals
  {
    t[key := Counter(t, key) + step]
  }

  /** `c.decision?.payout || 0`. */
  function PayoutOf(c: Claim): int
  {
    if c.decision.Some? then NumberOr(Some(c.decision.value.payout), 0) else 0
  }

  /** The property a claim's status counts under: the status, or "undefined". */
  function StatusKey(c: Claim): string
  {
    Js.Text(c.status)
  }

  /** One step of the `reduce`, in the order of its four statements. */
  function Tally(acc: Totals, c: Claim): Totals
  {
    var a := Bump(acc, "count", 1);
    var b := Bump(a, "amount", NumberOr(c.amount, 0));
    var d := Bump(b, StatusKey(c), 1);
    Bump(d, "payout", PayoutOf(c))
  }

  /** The initial accumulator `{ count: 0, amount: 0, payout: 0 }`. */
  function InitialTotals(): Totals
  {
    map["count" := 0, "amount" := 0, "payout" := 0]
  }

  /** The totals of the claims so far. */
  function StatsOf(claims: seq<Claim>): Totals
  {
    if claims == [] then InitialTotals() else Tally(StatsOf(claims[..|claims| - 1]), claims[|claims| - 1])
  }

  /** `GET /api/stats`: `claims.reduce(..., { count: 0, amount: 0, payout: 0 })`. */
  method Stats(claims: seq<Claim>) returns (totals: Totals)
    ensures totals == StatsOf(claims)
  {
    totals := InitialTotals();
    for i := 0 to |claims|
      invariant totals == StatsOf(claims[..i])
    {
      assert claims[..i + 1][..i] == claims[..i];
      var c := claims[i];
      totals := Bump(totals, "count", 1);
      totals := Bump(totals, "amount", NumberOr(c.amount, 0));
      totals := Bump(totals, StatusKey(c), 1);
      totals := Bump(totals, "payout", PayoutOf(c));
    }
    assert claims[..|claims|] == claims;
  }

  /** The three property names the accumulator starts with. */
  predicate Reserved(key: string)
  {
    key == "count" || key == "amount" || key == "payout"
  }

  /** No claim's status is one of the accumulator's own property names. */
  predicate PlainStatuses(claims: seq<Claim>)
  {
    forall j :: 0 <= j < |claims| ==> !Reserved(StatusKey(claims[j]))
  }

  /** The sum of `c.amount || 0`. */
  function AmountSum(claims: seq<Claim>): int
  {
    if claims == [] then 0 else AmountSum(claims[..|claims| - 1]) + NumberOr(claims[|claims| - 1].amount, 0)
  }

  /** The sum of `c.decision?.payout || 0`. */
  function PayoutSum(claims: seq<Claim>): int
  {
    if claims == [] then 0 else PayoutSum(claims[..|claims| - 1]) + PayoutOf(claims[|claims| - 1])
  }

  /** The number of claims counted under `key`. */
  function StatusCount(claims: seq<Claim>, key: string): nat
  {
    if claims == [] then 0
    else StatusCount(claims[..|claims| - 1], key) + (if StatusKey(claims[|claims| - 1]) == key then 1 else 0)
  }

  /** With plain statuses, one step adds one to `count`, the claim's amount
      and payout to the sums, and one to the claim's status alone. */
  lemma TallyStep(acc: Totals, c: Claim)
    requires !Reserved(StatusKey(c))
    ensures Counter(Tally(acc, c), "count") == Counter(acc, "count") + 1
    ensures Counter(Tally(acc, c), "amount") == Counter(acc, "amount") + NumberOr(c.amount, 0)
    ensures Counter(Tally(acc, c), "payout") == Counter(acc, "payout") + PayoutOf(c)
    ensures forall key :: !Reserved(key) ==>
      Counter(Tally(acc, c), key) == Counter(acc, key) + (if StatusKey(c) == key then 1 else 0)
  {
  }

  /** With plain statuses the totals are: `count` the number of claims,
      `amount` and `payout` the sums, and the counter of every other name
      the number of claims with that status. */
  lemma {:induction false} StatsSpec(claims: seq<Claim>)
    requires PlainStatuses(claims)
    ensures Counter(StatsOf(claims), "count") == |claims|
    ensures Counter(StatsOf(claims), "amount") == AmountSum(claims)
    ensures Counter(StatsOf(claims), "payout") == PayoutSum(claims)
    ensures forall key :: !Reserved(key) ==> Counter(StatsOf(claims), key) == StatusCount(claims, key)
  {
    if claims != [] {
      var n := |claims| - 1;
      PlainStatusesInit(claims);
      StatsSpec(claims[..n]);
      TallyStep(StatsOf(claims[..n]), claims[n]);
    }
  }

  lemma PlainStatusesInit(claims: seq<Claim>)
    requires PlainStatuses(claims) && claims != []
    ensures PlainStatuses(claims[..|claims| - 1]) && !Reserved(StatusKey(claims[|claims| - 1]))
  {
    var init := claims[..|claims| - 1];
    forall j | 0 <= j < |init| ensures !Reserved(StatusKey(init[j])) {
      assert init[j] == claims[j];
    }
  }

  /** A claim has the status `key`. */
  predicate HasStatus(claims: seq<Claim>, key: string)
  {
    exists j :: 0 <= j < |claims| && StatusKey(claims[j]) == key
  }

  /** One step adds exactly the three sums and the claim's status as names. */
  lemma TallyKeys(acc: Totals, c: Claim, key: string)
    ensures key in Tally(acc, c) <==> key in acc || Reserved(key) || key == StatusKey(c)
  {
  }

  lemma HasStatusSnoc(claims: seq<Claim>, key: string)
    requires claims != []
    ensures HasStatus(claims, key)
        <==> HasStatus(claims[..|claims| - 1], key) || StatusKey(claims[|claims| - 1]) == key
  {
    var init := claims[..|claims| - 1];
    if HasStatus(claims, key) && StatusKey(claims[|claims| - 1]) != key {
      var j :| 0 <= j < |claims| && StatusKey(claims[j]) == key;
      assert init[j] == claims[j];
    }
    if HasStatus(init, key) {
      var j :| 0 <= j < |init| && StatusKey(init[j]) == key;
      assert claims[j] == init[j];
    }
  }

  /** With plain statuses, the totals hold a counter for a name other than
      the three sums exactly when some claim has that status. */
  lemma {:induction false} StatsKeys(claims: seq<Claim>, key: string)
    requires PlainStatuses(claims) && !Reserved(key)
    ensures key in StatsOf(claims) <==> HasStatus(claims, key)
  {
    if claims != [] {
      var n := |claims| - 1;
      PlainStatusesInit(claims);
      StatsKeys(claims[..n], key);
      TallyKeys(StatsOf(claims[..n]), claims[n], key);
      HasStatusSnoc(claims, key);
    }
  }

  /** The number of entries of `keys` equal to `x`. */
  function Hits(x: string, keys: seq<string>): nat
  {
    if keys == [] then 0 else (if keys[0] == x then 1 else 0) + Hits(x, keys[1..])
  }

  /** `keys` holds no repeats. */
  predicate Distinct(keys: seq<string>)
  {
    forall i, j :: 0 <= i < j < |keys| ==> keys[i] != keys[j]
  }

  /** A key occurs once in a list without repeats that holds it. */
  lemma {:induction false} HitsOnce(x: string, keys: seq<string>)
    requires Distinct(keys) && x in keys
    ensures Hits(x, keys) == 1
  {
    if keys[0] == x {
      HitsNone(x, keys[1..]);
    } else {
      HitsOnce(x, keys[1..]);
    }
  }

  lemma {:induction false} HitsNone(x: string, keys: seq<string>)
    requires x !in keys
    ensures Hits(x, keys) == 0
  {
    if keys != [] {
      HitsNone(x, keys[1..]);
    }
  }

  /** The sum of the counters of `keys`. */
  function CounterSum(t: Totals, keys: seq<string>): int
  {
    if keys == [] then 0 else Counter(t, keys[0]) + CounterSum(t, keys[1..])
  }

  /** The sum of the per-status claim counts of `keys`. */
  function StatusCountSum(claims: seq<Claim>, keys: seq<string>): int
  {
    if keys == [] then 0 else StatusCount(claims, keys[0]) + StatusCountSum(claims, keys[1..])
  }

  lemma {:induction false} StatusCountSumSnoc(claims: seq<Claim>, keys: seq<string>)
    requires claims != []
    ensures StatusCountSum(claims, keys)
         == StatusCountSum(claims[..|claims| - 1], keys) + Hits(StatusKey(claims[|claims| - 1]), keys)
  {
    if keys != [] {
      StatusCountSumSnoc(claims, keys[1..]);
    }
  }

  /** Every claim is counted once among distinct keys naming all statuses. */
  lemma {:induction false} StatusCountSumAll(claims: seq<Claim>, keys: seq<string>)
    requires Distinct(keys)
    requires forall j :: 0 <= j < |claims| ==> StatusKey(claims[j]) in keys
    ensures StatusCountSum(claims, keys) == |claims|
  {
    if claims == [] {
      StatusCountSumEmpty(keys);
    } else {
      var n := |claims| - 1;
      assert forall j :: 0 <= j < n ==> claims[..n][j] == claims[j];
      StatusCountSumAll(claims[..n], keys);
      StatusCountSumSnoc(claims, keys);
      HitsOnce(StatusKey(claims[n]), keys);
    }
  }

  lemma {:induction false} StatusCountSumEmpty(keys: seq<string>)
    ensures StatusCountSum([], keys) == 0
  {
    if keys != [] {
      StatusCountSumEmpty(keys[1..]);
    }
  }

  lemma {:induction false} CounterSumIsCountSum(claims: seq<Claim>, keys: seq<string>)
    requires forall key :: !Reserved(key) ==> Counter(StatsOf(claims), key) == StatusCount(claims, key)
    requires forall i :: 0 <= i < |keys| ==> !Reserved(keys[i])
    ensures CounterSum(StatsOf(claims), keys) == StatusCountSum(claims, keys)
  {
    if keys != [] {
      CounterSumIsCountSum(claims, keys[1..]);
    }
  }

  /** With plain statuses, the per-status counters of the statuses that occur
      add up to `count`. */
  lemma StatusCountersSumToCount(claims: seq<Claim>, statuses: seq<string>)
    requires PlainStatuses(claims)
    requires Distinct(statuses)
    requires forall i :: 0 <= i < |statuses| ==> !Reserved(statuses[i])
    requires forall j :: 0 <= j < |claims| ==> StatusKey(claims[j]) in statuses
    ensures CounterSum(StatsOf(claims), statuses) == Counter(StatsOf(claims), "count")
  {
    StatsSpec(claims);
    CounterSumIsCountSum(claims, statuses);
    StatusCountSumAll(claims, statuses);
  }

  /** A claim whose status is "count" increments `count` twice. */
  lemma CountStatusCountsTwice(c: Claim)
    requires StatusKey(c) == "count"
    ensures Counter(StatsOf([c]), "count") == 2
  {
    assert [c][..0] == [];
  }
}
