/** The ingestion adapters: key/value text, CSV rows, the insurance dataset
    export and PDF text, each turned into canonical claims. CSV and PDF
    decoding are done by libraries; their output (rows as string maps, the
    PDF's text) is the input here. `parseFloat` and `Number` are parameters. */
module Parsers {
  import opened Js
  import opened Text
  import opened Seqs
  import opened Claims

  /** A record of string fields: a CSV row, or the object a line loop fills. */
  type Fields = map<string, string>

  /** `obj[key]`: `undefined` when the field was never set. */
  function Get(f: Fields, key: string): Option<string>
  {
    if key in f then Some(f[key]) else None
  }

  /** `parseFloat` or `Number` applied to a string. */
  type ToNumber = string -> Number

  /** The entry one line contributes, if any. */
  type LineParser = string -> Option<(string, string)>

  /** One line of the text format: `const [k, ...rest] = line.split(':')`,
      skipped when `k` is empty, else `k.trim()` mapped to
      `rest.join(':').trim()`. */
  function KeyValue(line: string): Option<(string, string)>
  {
    var parts := Split(line, ':');
    if parts[0] == "" then None else Some((Trim(parts[0]), Trim(Join(parts[1..], ":"))))
  }

  /** A line is skipped exactly when nothing precedes its first ':'; the key
      is the trimmed text before the first ':' and the value the trimmed rest,
      later ':' characters included. */
  lemma KeyValueSpec(line: string)
    ensures KeyValue(line).None? <==> line == "" || line[0] == ':'
    ensures ':' !in line && line != "" ==> KeyValue(line) == Some((Trim(line), ""))
    ensures ':' in line && line[0] != ':' ==>
      var i := IndexOf(line, ':');
      KeyValue(line) == Some((Trim(line[..i]), Trim(line[i + 1..])))
  {
    var i := IndexOf(line, ':');
    if i >= 0 {
      var parts := Split(line, ':');
      assert parts[1..] == Split(line[i + 1..], ':');
      JoinSplit(line[i + 1..], ':');
      assert line[0] == ':' <==> i == 0;
    }
  }

  /** The record the line loop leaves: each line's entry, in order, a later
      entry overwriting an earlier one with the same key. */
  function Collect(lines: seq<string>, entry: LineParser): Fields
  {
    if lines == [] then map[]
    else
      var f := Collect(lines[..|lines| - 1], entry);
      var e := entry(lines[|lines| - 1]);
      if e.Some? then f[e.value.0 := e.value.1] else f
  }

  /** Line `i` sets field `key`. */
  predicate Sets(lines: seq<string>, entry: LineParser, i: int, key: string)
  {
    0 <= i < |lines| && entry(lines[i]).Some? && entry(lines[i]).value.0 == key
  }

  /** A field is present exactly when some line sets it. */
  lemma {:induction false} CollectHas(lines: seq<string>, entry: LineParser, key: string)
    ensures key in Collect(lines, entry) <==> exists i :: Sets(lines, entry, i, key)
  {
    if lines != [] {
      var n := |lines| - 1;
      var init := lines[..n];
      CollectHas(init, entry, key);
      if exists i :: Sets(init, entry, i, key) {
        var i :| Sets(init, entry, i, key);
        assert Sets(lines, entry, i, key);
      }
      if !Sets(lines, entry, n, key) && exists i :: Sets(lines, entry, i, key) {
        var i :| Sets(lines, entry, i, key);
        assert Sets(init, entry, i, key);
      }
    }
  }

  /** A field holds the value of the last line that sets it. */
  lemma {:induction false} CollectLastWins(lines: seq<string>, entry: LineParser, key: string, i: nat)
    requires Sets(lines, entry, i, key)
    requires forall j :: i < j < |lines| ==> !Sets(lines, entry, j, key)
    ensures key in Collect(lines, entry) && Collect(lines, entry)[key] == entry(lines[i]).value.1
  {
    var n := |lines| - 1;
    if i < n {
      var init := lines[..n];
      assert !Sets(lines, entry, n, key);
      assert Sets(init, entry, i, key);
      forall j | i < j < n ensures !Sets(init, entry, j, key) {
        assert init[j] == lines[j] && !Sets(lines, entry, j, key);
      }
      CollectLastWins(init, entry, key, i);
    }
  }

  /** A single line gives its entry alone, or nothing. */
  lemma CollectOne(line: string, entry: LineParser)
    ensures entry(line).None? ==> Collect([line], entry) == map[]
    ensures entry(line).Some? ==> Collect([line], entry) == map[entry(line).value.0 := entry(line).value.1]
  {
    assert [line][..0] == [];
  }

  /** `for (const line of lines) { ... obj[k] = v; }` */
  method CollectFields(lines: seq<string>, entry: LineParser) returns (obj: Fields)
    ensures obj == Collect(lines, entry)
  {
    obj := map[];
    for i := 0 to |lines|
      invariant obj == Collect(lines[..i], entry)
    {
      assert lines[..i + 1][..i] == lines[..i];
      var e := entry(lines[i]);
      if e.Some? {
        obj := obj[e.value.0 := e.value.1];
      }
    }
    assert lines[..|lines|] == lines;
  }

  /** `f.amount || f.claimAmount || '0'`. */
  function AmountText(f: Fields): (s: string)
    ensures Truthy(Get(f, "amount")) ==> s == f["amount"]
    ensures !Truthy(Get(f, "amount")) && Truthy(Get(f, "claimAmount")) ==> s == f["claimAmount"]
    ensures !Truthy(Get(f, "amount")) && !Truthy(Get(f, "claimAmount")) ==> s == "0"
  {
    OrDefault(Or(Get(f, "amount"), Get(f, "claimAmount")), "0")
  }

  /** The claim the text, CSV and PDF adapters build from a record of fields:
      submitted, on the paper channel, with no attachments or flags, and the
      country defaulting to "US". */
  function PaperClaim(f: Fields, id: Option<string>, amount: Number, now: string): (c: Claim)
    ensures c.status == Some("submitted") && c.channel == Some("paper")
    ensures c.attachments == Some([]) && c.flags == Some([])
    ensures c.id == id && c.claimantId == Get(f, "claimantId") && c.policyId == Get(f, "policyId")
    ensures c.amount == Some(amount)
    ensures IncidentDate(c) == Get(f, "incidentDate") && IncidentKind(c) == Get(f, "incidentType")
    ensures IncidentDescription(c) == Get(f, "description")
    ensures c.incident.Some? && c.incident.value.location == Some(Location(Get(f, "city"), Get(f, "state"), Some(OrDefault(Get(f, "country"), "US"))))
    ensures c.createdAt == Some(now) && c.updatedAt == Some(now)
    ensures c.validation.None? && c.fraud.None? && c.decision.None?
  {
    Claim(
      id := id,
      claimantId := Get(f, "claimantId"),
      policyId := Get(f, "policyId"),
      incident := Some(Incident(Get(f, "incidentDate"), Get(f, "incidentType"), Get(f, "description"),
                                Some(Location(Get(f, "city"), Get(f, "state"), Some(OrDefault(Get(f, "country"), "US")))))),
      amount := Some(amount),
      attachments := Some([]),
      channel := Some("paper"),
      status := Some("submitted"),
      flags := Some([]),
      createdAt := Some(now),
      updatedAt := Some(now),
      validation := None,
      fraud := None,
      decision := None)
  }

  /** The fields of a key/value text. */
  function TextFields(content: string): Fields
  {
    Collect(SplitLines(content), KeyValue)
  }

  /** `parseTxtClaim` of the ingestion module: the id is taken as given, and
      may be absent. */
  method ParseTxtClaim(content: string, parseFloat: ToNumber, now: string) returns (c: Claim)
    ensures var f := TextFields(content);
      c == PaperClaim(f, Get(f, "id"), parseFloat(AmountText(f)), now)
  {
    var obj := CollectFields(SplitLines(content), KeyValue);
    c := PaperClaim(obj, Get(obj, "id"), parseFloat(AmountText(obj)), now);
  }

  /** `parseCsvClaims`: one claim per row, in row order. */
  function CsvClaims(rows: seq<Fields>, parseFloat: ToNumber, now: string): (claims: seq<Claim>)
    ensures |claims| == |rows|
    ensures forall i :: 0 <= i < |rows| ==>
      claims[i] == PaperClaim(rows[i], Get(rows[i], "id"), parseFloat(AmountText(rows[i])), now)
  {
    seq(|rows|, i requires 0 <= i < |rows| => PaperClaim(rows[i], Get(rows[i], "id"), parseFloat(AmountText(rows[i])), now))
  }

  /** A CSV row and a text holding the same fields give the same claim. */
  lemma CsvRowLikeText(content: string, rows: seq<Fields>, i: nat, parseFloat: ToNumber, now: string)
    requires i < |rows| && rows[i] == TextFields(content)
    ensures var f := TextFields(content);
      CsvClaims(rows, parseFloat, now)[i] == PaperClaim(f, Get(f, "id"), parseFloat(AmountText(f)), now)
  {
  }

  // ---------------------------------------------------------------------
  // The insurance dataset export

  /** One reading of the clock: `Date.now()` and the matching ISO string. */
  datatype Instant = Instant(ms: nat, iso: string)

  /** `CLM-${Date.now()}`: the id the inbox watcher and the portal give a
      claim that arrives without one. */
  function GeneratedId(ms: nat): string
  {
    "CLM-" + NatToString(ms)
  }

  /** An exported record with the clock reading taken while it is converted. */
  datatype Row = Row(fields: Fields, at: Instant)

  /** `String(r.policy_number || '').trim()`. */
  function PolicyNumber(r: Fields): string
  {
    Trim(OrDefault(Get(r, "policy_number"), ""))
  }

  /** `policyNumber ? `POL-${policyNumber}` : undefined`. */
  function DatasetPolicyId(r: Fields): (id: Option<string>)
    ensures id.None? <==> PolicyNumber(r) == ""
    ensures id.Some? ==> id.value == "POL-" + PolicyNumber(r)
  {
    var n := PolicyNumber(r);
    if n != "" then Some("POL-" + n) else None
  }

  /** `Number(r.policy_deductable || 500) || 500`: never 0 nor NaN. */
  function DatasetDeductible(r: Fields, toNumber: ToNumber): (d: int)
    ensures d != 0
    ensures !Truthy(Get(r, "policy_deductable")) ==> d == 500
    ensures Truthy(Get(r, "policy_deductable")) && NumberTruthy(toNumber(r["policy_deductable"])) ==>
      d == toNumber(r["policy_deductable"]).value
  {
    var n := if Truthy(Get(r, "policy_deductable")) then toNumber(r["policy_deductable"]) else Num(500);
    if NumberTruthy(n) then n.value else 500
  }

  /** The policy a row with a policy number creates. */
  function DatasetPolicy(r: Fields, toNumber: ToNumber, id: string): (p: Policy)
    ensures p.id == Some(id) && p.personId.None? && p.policyNumber == Some(PolicyNumber(r))
    ensures p.deductible == Some(Num(DatasetDeductible(r, toNumber))) && p.coverageLimit == Some(Num(50000))
    ensures p.active && p.startDate == Some("2010-01-01") && p.endDate == Some("2030-12-31")
  {
    Policy(Some(id), None, Some(PolicyNumber(r)), Some("Auto"), Some(Num(DatasetDeductible(r, toNumber))),
           Some(Num(50000)), true, Some("2010-01-01"), Some("2030-12-31"))
  }

  /** The policy id of an exported row, as the key of the policy map. */
  function RowPolicyId(row: Row): Option<string>
  {
    DatasetPolicyId(row.fields)
  }

  /** The policy a row creates under a given id, as a function value. */
  function RowPolicy(toNumber: ToNumber): (Row, string) -> Policy
  {
    (row: Row, id: string) => DatasetPolicy(row.fields, toNumber, id)
  }

  /** The `policies` map of the import: keyed by policy id, in insertion order. */
  function DatasetPolicyMap(rows: seq<Row>, toNumber: ToNumber): seq<(string, Policy)>
  {
    FirstPerKey(rows, RowPolicyId, RowPolicy(toNumber))
  }

  /** `Array.from(policies.values())`. */
  function DatasetPolicies(rows: seq<Row>, toNumber: ToNumber): seq<Policy>
  {
    Values(DatasetPolicyMap(rows, toNumber))
  }

  /** A `d-m-y` date as `y-mm-dd`; absent without a '-' or when a part is empty
      or missing. Parts after the third are ignored. */
  function IsoDate(dt: string): (r: Option<string>)
    ensures '-' !in dt ==> r.None?
  {
    if '-' !in dt then None
    else
      var parts := Split(dt, '-');
      if |parts| >= 3 && parts[0] != "" && parts[1] != "" && parts[2] != "" then
        Some(parts[2] + "-" + PadStart2(parts[1]) + "-" + PadStart2(parts[0]))
      else None
  }

  /** The first three pieces of `d-m-y` followed by nothing or by more
      `-`-separated text. */
  lemma {:induction false} SplitThree(dt: string, d: string, m: string, y: string, more: string)
    requires '-' !in d && '-' !in m && '-' !in y
    requires more == "" || more[0] == '-'
    requires dt == d + ['-'] + (m + ['-'] + (y + more))
    ensures var parts := Split(dt, '-');
      |parts| >= 3 && parts[0] == d && parts[1] == m && parts[2] == y
  {
    var tail := y + more;
    SplitLast(y, more);
    SplitCons(m, '-', tail);
    SplitCons(d, '-', m + ['-'] + tail);
  }

  /** The first piece of `y` followed by nothing or by `-...` is `y`. */
  lemma {:induction false} SplitLast(y: string, more: string)
    requires '-' !in y
    requires more == "" || more[0] == '-'
    ensures Split(y + more, '-')[0] == y
  {
    if more == "" {
      assert y + more == y;
    } else {
      assert y + more == y + ['-'] + more[1..];
      SplitCons(y, '-', more[1..]);
    }
  }

  /** Day, month and year are moved to year, month, day, the month and day
      padded to two digits. */
  lemma IsoDateOfParts(dt: string, d: string, m: string, y: string, more: string)
    requires d != "" && m != "" && y != "" && '-' !in d && '-' !in m && '-' !in y
    requires more == "" || more[0] == '-'
    requires dt == d + "-" + m + "-" + y + more
    ensures IsoDate(dt) == Some(y + "-" + PadStart2(m) + "-" + PadStart2(d))
  {
    assert dt == d + ['-'] + (m + ['-'] + (y + more));
    SplitThree(dt, d, m, y, more);
    assert dt[|d|] == '-';
  }

  /** A date with fewer than three parts, or with an empty one, is dropped. */
  lemma IsoDateNeedsThreeParts(dt: string)
    requires '-' in dt
    requires var parts := Split(dt, '-'); |parts| < 3 || parts[0] == "" || parts[1] == "" || parts[2] == ""
    ensures IsoDate(dt).None?
  {
  }

  const DescriptionSeparator := " \U{00C2}\U{00B7} "

  /** `r.f && r.f !== '?'`. */
  predicate Informative(r: Fields, key: string)
  {
    Truthy(Get(r, key)) && r[key] != "?"
  }

  /** A labelled part, if its field is informative. */
  function DescriptionPart(r: Fields, key: string, tag: string): seq<string>
  {
    if Informative(r, key) then [tag + r[key]] else []
  }

  /** The collision, severity and authorities parts, in that order, joined. */
  function DatasetDescription(r: Fields): string
  {
    Join(DescriptionParts(r), DescriptionSeparator)
  }

  function DescriptionParts(r: Fields): (parts: seq<string>)
    ensures |parts| <= 3
    ensures parts == DescriptionPart(r, "collision_type", "Collision: ")
                     + DescriptionPart(r, "incident_severity", "Severity: ")
                     + DescriptionPart(r, "authorities_contacted", "Authorities: ")
  {
    DescriptionPart(r, "collision_type", "Collision: ")
    + DescriptionPart(r, "incident_severity", "Severity: ")
    + DescriptionPart(r, "authorities_contacted", "Authorities: ")
  }

  /** `CLM-IM-${Date.now()}-${claims.length + 1}`. */
  function DatasetClaimId(ms: nat, index: nat): string
  {
    "CLM-IM-" + NatToString(ms) + "-" + NatToString(index + 1)
  }

  /** The claim the `index`-th row of the export yields. */
  function DatasetClaim(row: Row, index: nat, toNumber: ToNumber): Claim
  {
    var r := row.fields;
    var amount := if Truthy(Get(r, "total_claim_amount")) then toNumber(r["total_claim_amount"]) else Num(0);
    var city := Trim(OrDefault(Get(r, "incident_city"), ""));
    var state := Trim(OrDefault(Or(Get(r, "incident_state"), Get(r, "policy_state")), ""));
    Claim(
      id := Some(DatasetClaimId(row.at.ms, index)),
      claimantId := None,
      policyId := DatasetPolicyId(r),
      incident := Some(Incident(IsoDate(Trim(OrDefault(Get(r, "incident_date"), ""))),
                                Some(OrDefault(Get(r, "incident_type"), "AutoCollision")),
                                Some(DatasetDescription(r)),
                                Some(Location(Some(city), Some(state), Some("US"))))),
      amount := Some(if NumberTruthy(amount) then amount else Num(0)),
      attachments := Some([]),
      channel := Some("portal"),
      status := Some("submitted"),
      flags := Some([]),
      createdAt := Some(row.at.iso),
      updatedAt := Some(row.at.iso),
      validation := None,
      fraud := None,
      decision := None)
  }

  /** A dataset claim: its generated id, the row's policy id, no claimant,
      the portal channel, the rewritten date, the incident type defaulting to
      "AutoCollision", the synthesised description, and a numeric amount. */
  lemma DatasetClaimShape(row: Row, index: nat, toNumber: ToNumber)
    ensures var c := DatasetClaim(row, index, toNumber);
      var r := row.fields;
      && c.id == Some(DatasetClaimId(row.at.ms, index)) && c.claimantId.None? && c.policyId == DatasetPolicyId(r)
      && c.channel == Some("portal") && c.status == Some("submitted") && c.attachments == Some([])
      && IncidentDate(c) == IsoDate(Trim(OrDefault(Get(r, "incident_date"), "")))
      && IncidentKind(c) == Some(OrDefault(Get(r, "incident_type"), "AutoCollision"))
      && IncidentDescription(c) == Some(DatasetDescription(r))
      && c.amount.Some? && c.amount.value.Num?
      && c.createdAt == Some(row.at.iso) && c.updatedAt == Some(row.at.iso)
  {
  }

  /** The loop's conversion of one row, as a function value. */
  function RowClaim(toNumber: ToNumber): (Row, nat) -> Claim
  {
    (row: Row, i: nat) => DatasetClaim(row, i, toNumber)
  }

  /** The claims of the export, one per row in row order. */
  function DatasetClaims(rows: seq<Row>, toNumber: ToNumber): seq<Claim>
  {
    MapIndexed(rows, RowClaim(toNumber))
  }

  /** There is one claim per row, and claim `i` comes from row `i`. */
  lemma DatasetClaimsRows(rows: seq<Row>, toNumber: ToNumber)
    ensures |DatasetClaims(rows, toNumber)| == |rows|
    ensures forall i :: 0 <= i < |rows| ==> DatasetClaims(rows, toNumber)[i] == DatasetClaim(rows[i], i, toNumber)
  {
    MapIndexedAt(rows, RowClaim(toNumber));
  }

  /** `parseInsuranceDatasetCsv` over the parsed records, each with its clock
      reading. */
  method ImportDataset(rows: seq<Row>, toNumber: ToNumber) returns (claims: seq<Claim>, policies: seq<Policy>)
    ensures claims == DatasetClaims(rows, toNumber)
    ensures policies == DatasetPolicies(rows, toNumber)
  {
    claims := [];
    var entries: seq<(string, Policy)> := [];
    for i := 0 to |rows|
      invariant claims == DatasetClaims(rows[..i], toNumber)
      invariant entries == DatasetPolicyMap(rows[..i], toNumber)
    {
      var r := rows[i].fields;
      MapIndexedSnoc(rows, i, RowClaim(toNumber));
      FirstPerKeySnoc(rows, i, RowPolicyId, RowPolicy(toNumber));
      var policyId := DatasetPolicyId(r);
      if policyId.Some? && !HasKey(entries, policyId.value) {
        entries := entries + [(policyId.value, DatasetPolicy(r, toNumber, policyId.value))];
      }
      claims := claims + [DatasetClaim(rows[i], |claims|, toNumber)];
    }
    assert rows[..|rows|] == rows;
    policies := Values(entries);
  }

  /** Two texts joined by a '-' that neither holds split back apart. */
  lemma DashJoinInjective(a: string, b: string, a2: string, b2: string)
    requires '-' !in a && '-' !in a2
    requires a + ['-'] + b == a2 + ['-'] + b2
    ensures a == a2 && b == b2
  {
    SplitCons(a, '-', b);
    SplitCons(a2, '-', b2);
    var s := a + ['-'] + b;
    assert Split(s, '-')[0] == a;
    assert Split(a2 + ['-'] + b2, '-')[0] == a2;
    assert b == s[|a| + 1..];
  }

  /** Generated ids are equal only for the same clock reading and position. */
  lemma DatasetClaimIdInjective(ms: nat, index: nat, ms2: nat, index2: nat)
    requires DatasetClaimId(ms, index) == DatasetClaimId(ms2, index2)
    ensures ms == ms2 && index == index2
  {
    var x, y := NatToString(ms), NatToString(index + 1);
    var x2, y2 := NatToString(ms2), NatToString(index2 + 1);
    assert DatasetClaimId(ms, index)[7..] == x + ['-'] + y;
    assert DatasetClaimId(ms2, index2)[7..] == x2 + ['-'] + y2;
    assert !IsDigit('-');
    DashJoinInjective(x, y, x2, y2);
    NatToStringInjective(ms, ms2);
    NatToStringInjective(index + 1, index2 + 1);
  }

  /** The claims of one import have pairwise different ids, whatever the
      clock readings: the position is part of the id. */
  lemma DatasetIdsDistinct(rows: seq<Row>, toNumber: ToNumber, i: nat, j: nat)
    requires i < |rows| && j < |rows| && i != j
    ensures DatasetClaims(rows, toNumber)[i].id != DatasetClaims(rows, toNumber)[j].id
  {
    DatasetClaimsRows(rows, toNumber);
    if DatasetClaimId(rows[i].at.ms, i) == DatasetClaimId(rows[j].at.ms, j) {
      DatasetClaimIdInjective(rows[i].at.ms, i, rows[j].at.ms, j);
    }
  }

  /** Entry `k` of the policy map holds a policy with the entry's own id. */
  lemma DatasetPolicyMapIds(rows: seq<Row>, toNumber: ToNumber)
    ensures var m := DatasetPolicyMap(rows, toNumber);
      forall k :: 0 <= k < |m| ==> m[k].1.id == Some(m[k].0)
  {
    FirstPerKeyFirstWins(rows, RowPolicyId, RowPolicy(toNumber));
  }

  /** No two imported policies share an id. */
  lemma DatasetPoliciesUnique(rows: seq<Row>, toNumber: ToNumber)
    ensures var ps := DatasetPolicies(rows, toNumber);
      forall i, j :: 0 <= i < j < |ps| ==> ps[i].id != ps[j].id
  {
    FirstPerKeyUnique(rows, RowPolicyId, RowPolicy(toNumber));
    DatasetPolicyMapIds(rows, toNumber);
  }

  /** Every row with a policy number has its policy id among the map's keys. */
  lemma DatasetPoliciesCover(rows: seq<Row>, toNumber: ToNumber)
    ensures forall i :: 0 <= i < |rows| && RowPolicyId(rows[i]).Some? ==>
      HasKey(DatasetPolicyMap(rows, toNumber), RowPolicyId(rows[i]).value)
  {
    FirstPerKeyCover(rows, RowPolicyId, RowPolicy(toNumber));
  }

  /** Each imported policy is the one built from the first row carrying its
      policy number: later rows with the same number change nothing. */
  lemma DatasetPoliciesFirstRowWins(rows: seq<Row>, toNumber: ToNumber)
    ensures MadeFromFirst(rows, RowPolicyId, RowPolicy(toNumber), DatasetPolicyMap(rows, toNumber))
  {
    FirstPerKeyFirstWins(rows, RowPolicyId, RowPolicy(toNumber));
  }

  /** Every imported claim with a policy id finds that policy among the
      imported policies. */
  lemma DatasetClaimPoliciesImported(rows: seq<Row>, toNumber: ToNumber)
    ensures forall i :: 0 <= i < |rows| && DatasetClaims(rows, toNumber)[i].policyId.Some? ==>
      HasKey(DatasetPolicyMap(rows, toNumber), DatasetClaims(rows, toNumber)[i].policyId.value)
  {
    DatasetClaimsRows(rows, toNumber);
    DatasetPoliciesCover(rows, toNumber);
    forall i | 0 <= i < |rows| ensures DatasetClaim(rows[i], i, toNumber).policyId == DatasetPolicyId(rows[i].fields) {
      DatasetClaimShape(rows[i], i, toNumber);
    }
  }

  // ---------------------------------------------------------------------
  // The PDF adapter

  /** The field names the PDF line pattern accepts, in the order of its
      alternation. */
  const PdfKeys: seq<string> :=
    ["id", "claimantId", "policyId", "incidentDate", "incidentType", "amount", "description", "city", "state", "country"]

  /** The line starts with `key` up to ASCII case (the pattern's `i` flag). */
  predicate KeyPrefix(line: string, key: string)
  {
    |key| <= |line| && AsciiLower(line[..|key|]) == AsciiLower(key)
  }

  predicate NoLineTerminator(s: string)
  {
    forall i :: 0 <= i < |s| ==> !IsLineTerminator(s[i])
  }

  /** `\s*(.+)$` can match `u`: after some white space, a non-empty rest
      without line terminators (`.` does not match them). */
  predicate CaptureMatches(u: string)
  {
    exists k :: 0 <= k < |u| && AllSpace(u[..k]) && NoLineTerminator(u[k..])
  }

  /** `\s*[:\-]\s*(.+)$` applied to the text after the key, and the capture
      trimmed. White space is never ':' nor '-', so the separator sits right
      after the leading white space; the capture, trimmed, is the rest
      trimmed (see `PdfCaptureTrim`). */
  function PdfValue(rest: string): Option<string>
  {
    var t := TrimStart(rest);
    if t != [] && (t[0] == ':' || t[0] == '-') && CaptureMatches(t[1..]) then Some(Trim(t[1..])) else None
  }

  /** The value key `k` yields on `line`: the line starts with the key, then
      come a separator and a value. */
  function KeyAttempt(line: string): string -> Option<string>
  {
    (k: string) => if KeyPrefix(line, k) then PdfValue(line[|k|..]) else None
  }

  /** An alternation tried key by key: the first key that yields a value,
      with that value. */
  function FirstAttempt(keys: seq<string>, attempt: string -> Option<string>): Option<(string, string)>
  {
    if keys == [] then None
    else if attempt(keys[0]).Some? then Some((keys[0], attempt(keys[0]).value))
    else FirstAttempt(keys[1..], attempt)
  }

  /** `line.match(/^(id|claimantId|...|country)\s*[:\-]\s*(.+)$/i)`: the
      listed key matched, the key as the line spells it (`m[1]`) and the
      trimmed value (`m[2].trim()`). */
  function PdfMatch(line: string): Option<(string, string, string)>
  {
    var m := FirstAttempt(PdfKeys, KeyAttempt(line));
    if m.Some? && |m.value.0| <= |line| then Some((m.value.0, line[..|m.value.0|], m.value.1)) else None
  }

  /** `if (m) kv[m[1]] = m[2].trim()`: the key is stored as the line spells it. */
  function PdfEntry(line: string): Option<(string, string)>
  {
    var m := PdfMatch(line);
    if m.Some? then Some((m.value.1, m.value.2)) else None
  }

  /** The same, storing the field under its listed name. */
  function PdfEntryCanonical(line: string): Option<(string, string)>
  {
    var m := PdfMatch(line);
    if m.Some? then Some((m.value.0, m.value.2)) else None
  }

  /** The lines of the extracted text, `(data.text || '').split(/\r?\n/)`. */
  function PdfLines(text: Option<string>): seq<string>
  {
    SplitLines(OrDefault(text, ""))
  }

  /** The claim `parsePdfClaim` builds from its fields: the amount is
      `parseFloat(kv.amount || '0')`. */
  function PdfClaimOf(kv: Fields, parseFloat: ToNumber, now: string): Claim
  {
    PaperClaim(kv, Get(kv, "id"), parseFloat(OrDefault(Get(kv, "amount"), "0")), now)
  }

  /** `parsePdfClaim`, given the text the PDF library extracts. */
  method ParsePdfClaim(text: Option<string>, parseFloat: ToNumber, now: string) returns (c: Claim)
    ensures c == PdfClaimOf(Collect(PdfLines(text), PdfEntry), parseFloat, now)
  {
    var kv := CollectFields(PdfLines(text), PdfEntry);
    c := PdfClaimOf(kv, parseFloat, now);
  }

  /** The adapter with field names stored in their listed spelling. */
  method ParsePdfClaimCanonical(text: Option<string>, parseFloat: ToNumber, now: string) returns (c: Claim)
    ensures c == PdfClaimOf(Collect(PdfLines(text), PdfEntryCanonical), parseFloat, now)
  {
    var kv := CollectFields(PdfLines(text), PdfEntryCanonical);
    c := PdfClaimOf(kv, parseFloat, now);
  }

  /** Leading white space before the capture does not change it once trimmed. */
  lemma {:induction false} TrimStartSkipsSpace(u: string, k: nat)
    requires k <= |u| && AllSpace(u[..k])
    ensures TrimStart(u) == TrimStart(u[k..])
  {
    if k > 0 {
      assert IsSpace(u[..k][0]);
      assert u[1..][..k - 1] == u[..k][1..];
      assert u[1..][k - 1..] == u[k..];
      TrimStartSkipsSpace(u[1..], k - 1);
    }
  }

  /** Whichever white space `\s*` takes before the capture, the trimmed
      capture is the trimmed rest. */
  lemma PdfCaptureTrim(u: string, k: nat)
    requires k <= |u| && AllSpace(u[..k])
    ensures Trim(u[k..]) == Trim(u)
  {
    TrimStartSkipsSpace(u, k);
  }

  /** The key taken is the first, in pattern order, that yields a value;
      none when no key does. */
  lemma {:induction false} FirstAttemptSpec(keys: seq<string>, attempt: string -> Option<string>)
    ensures FirstAttempt(keys, attempt).None? <==> forall j :: 0 <= j < |keys| ==> attempt(keys[j]).None?
    ensures FirstAttempt(keys, attempt).Some? ==>
      exists j :: 0 <= j < |keys| && attempt(keys[j]).Some? && FirstAttempt(keys, attempt) == Some((keys[j], attempt(keys[j]).value))
        && forall l :: 0 <= l < j ==> attempt(keys[l]).None?
  {
    if keys != [] && attempt(keys[0]).None? {
      var rest := keys[1..];
      FirstAttemptSpec(rest, attempt);
      assert forall j :: 1 <= j < |keys| ==> rest[j - 1] == keys[j];
      if FirstAttempt(rest, attempt).Some? {
        var j :| 0 <= j < |rest| && attempt(rest[j]).Some? && FirstAttempt(rest, attempt) == Some((rest[j], attempt(rest[j]).value))
          && forall l :: 0 <= l < j ==> attempt(rest[l]).None?;
        assert keys[j + 1] == rest[j];
      }
    }
  }

  /** Keys that yield nothing are passed over. */
  lemma {:induction false} FirstAttemptSkips(keys: seq<string>, attempt: string -> Option<string>, n: nat)
    requires n < |keys| && attempt(keys[n]).Some?
    requires forall j :: 0 <= j < n ==> attempt(keys[j]).None?
    ensures FirstAttempt(keys, attempt) == Some((keys[n], attempt(keys[n]).value))
  {
    if n > 0 {
      assert forall j :: 0 <= j <= n - 1 ==> keys[1..][j] == keys[j + 1];
      FirstAttemptSkips(keys[1..], attempt, n - 1);
    }
  }

  /** A matched key is a listed key the line starts with up to case, and the
      value is the trimmed text after the separator. */
  lemma PdfMatchSpec(line: string)
    ensures PdfMatch(line).Some? ==>
      var m := PdfMatch(line).value;
      m.0 in PdfKeys && KeyPrefix(line, m.0) && m.1 == line[..|m.0|] && PdfValue(line[|m.0|..]) == Some(m.2)
  {
    FirstAttemptSpec(PdfKeys, KeyAttempt(line));
  }

  /** A line that spells its key exactly stores the same entry either way. */
  lemma PdfExactSpellingAgrees(line: string)
    requires PdfMatch(line).Some? && PdfMatch(line).value.0 == PdfMatch(line).value.1
    ensures PdfEntry(line) == PdfEntryCanonical(line)
  {
  }

  /** A key that matches case-insensitively shares the line's first letter. */
  lemma KeyPrefixFirst(line: string, key: string)
    requires key != ""
    ensures KeyPrefix(line, key) ==> LowerChar(line[0]) == LowerChar(key[0])
  {
    if KeyPrefix(line, key) {
      assert AsciiLower(line[..|key|])[0] == LowerChar(line[0]);
    }
  }

  /** A key whose first letter differs from the line's yields nothing. */
  lemma AttemptOtherLetter(line: string, key: string)
    requires key != "" && line != "" && LowerChar(key[0]) != LowerChar(line[0])
    ensures KeyAttempt(line)(key).None?
  {
    KeyPrefixFirst(line, key);
  }

  /** With the five keys listed before "amount" yielding nothing, the
      alternation takes "amount". */
  lemma AmountTakenFirst(attempt: string -> Option<string>)
    requires attempt("amount").Some?
    requires attempt("id").None? && attempt("claimantId").None? && attempt("policyId").None?
    requires attempt("incidentDate").None? && attempt("incidentType").None?
    ensures FirstAttempt(PdfKeys, attempt) == Some(("amount", attempt("amount").value))
  {
    var keys := PdfKeys;
    assert keys[..6] == ["id", "claimantId", "policyId", "incidentDate", "incidentType", "amount"];
    FirstAttemptSkips(keys, attempt, 5);
  }

  /** A line that gives the amount in any case, such as "Amount: 500", is
      matched as the amount field. */
  lemma PdfAmountLine(line: string)
    requires KeyPrefix(line, "amount") && PdfValue(line[6..]).Some?
    ensures PdfMatch(line) == Some(("amount", line[..6], PdfValue(line[6..]).value))
  {
    KeyPrefixFirst(line, "amount");
    AttemptOtherLetter(line, "id");
    AttemptOtherLetter(line, "claimantId");
    AttemptOtherLetter(line, "policyId");
    AttemptOtherLetter(line, "incidentDate");
    AttemptOtherLetter(line, "incidentType");
    AmountTakenFirst(KeyAttempt(line));
  }

  /** A separator, one space and a value with nothing to trim give that value. */
  lemma PdfValueSimple(rest: string, v: string)
    requires rest == [':', ' '] + v
    requires v != [] && !IsSpace(v[0]) && !IsSpace(v[|v| - 1]) && NoLineTerminator(v)
    ensures PdfValue(rest) == Some(v)
  {
    var u := rest[1..];
    assert TrimStart(rest) == rest;
    assert u[1..] == v && AllSpace(u[..1]);
    PdfCaptureTrim(u, 1);
  }

  /** The one-line text `k: v`, with `k` the amount key in any case. */
  lemma PdfAmountLineOf(k: string, v: string)
    requires AsciiLower(k) == "amount"
    requires v != [] && !IsSpace(v[0]) && !IsSpace(v[|v| - 1]) && NoLineTerminator(v)
    ensures PdfMatch(k + ": " + v) == Some(("amount", k, v))
  {
    var line := k + ": " + v;
    assert |k| == 6 && line[..6] == k && line[6..] == [':', ' '] + v;
    assert AsciiLower("amount") == "amount";
    assert KeyPrefix(line, "amount");
    PdfValueSimple(line[6..], v);
    PdfAmountLine(line);
  }

  /** That text is a single line. */
  lemma PdfAmountLinesOf(k: string, v: string)
    requires '\n' !in k && NoLineTerminator(v)
    ensures PdfLines(Some(k + ": " + v)) == [k + ": " + v]
  {
    var line := k + ": " + v;
    assert forall i :: 0 <= i < |v| ==> v[i] != '\n';
    assert forall i :: 0 <= i < |line| ==> line[i] != '\n' by {
      forall i | 0 <= i < |line| ensures line[i] != '\n' {
        if i < |k| { assert line[i] == k[i]; } else if i >= |k| + 2 { assert line[i] == v[i - |k| - 2]; }
      }
    }
    SplitLinesSingle(line);
  }

  /** The fields the two entry parsers collect from that line. */
  lemma PdfAmountFields(k: string, v: string)
    requires AsciiLower(k) == "amount" && '\n' !in k
    requires v != [] && !IsSpace(v[0]) && !IsSpace(v[|v| - 1]) && NoLineTerminator(v)
    ensures Collect(PdfLines(Some(k + ": " + v)), PdfEntry) == map[k := v]
    ensures Collect(PdfLines(Some(k + ": " + v)), PdfEntryCanonical) == map["amount" := v]
  {
    var line := k + ": " + v;
    PdfAmountLineOf(k, v);
    PdfAmountLinesOf(k, v);
    CollectOne(line, PdfEntry);
    CollectOne(line, PdfEntryCanonical);
  }

  /** As written, an amount line whose key is spelled in another case is
      matched and stored under that spelling, so `kv.amount` stays undefined
      and the amount is `parseFloat('0')`. */
  lemma PdfAmountCaseAsWritten(k: string, v: string, parseFloat: ToNumber, now: string)
    requires AsciiLower(k) == "amount" && k != "amount" && '\n' !in k
    requires v != [] && !IsSpace(v[0]) && !IsSpace(v[|v| - 1]) && NoLineTerminator(v)
    ensures PdfClaimOf(Collect(PdfLines(Some(k + ": " + v)), PdfEntry), parseFloat, now).amount == Some(parseFloat("0"))
  {
    PdfAmountFields(k, v);
    assert Get(map[k := v], "amount").None?;
  }

  /** With the listed spelling stored, the same line gives the amount `v`,
      whatever the case of its key. */
  lemma PdfAmountCaseCorrected(k: string, v: string, parseFloat: ToNumber, now: string)
    requires AsciiLower(k) == "amount" && '\n' !in k
    requires v != [] && !IsSpace(v[0]) && !IsSpace(v[|v| - 1]) && NoLineTerminator(v)
    ensures PdfClaimOf(Collect(PdfLines(Some(k + ": " + v)), PdfEntryCanonical), parseFloat, now).amount == Some(parseFloat(v))
  {
    PdfAmountFields(k, v);
    assert Get(map["amount" := v], "amount") == Some(v);
  }

  /** "Amount: 500" is such a line. */
  lemma PdfAmountCaseExample(k: string, v: string, parseFloat: ToNumber, now: string)
    requires k == "Amount" && v == "500"
    ensures PdfClaimOf(Collect(PdfLines(Some(k + ": " + v)), PdfEntry), parseFloat, now).amount == Some(parseFloat("0"))
    ensures PdfClaimOf(Collect(PdfLines(Some(k + ": " + v)), PdfEntryCanonical), parseFloat, now).amount == Some(parseFloat("500"))
  {
    assert AsciiLower(k) == "amount" && k[0] != 'a';
    assert !IsLineTerminator(v[0]) && !IsLineTerminator(v[1]) && !IsLineTerminator(v[2]);
    PdfAmountCaseAsWritten(k, v, parseFloat, now);
    PdfAmountCaseCorrected(k, v, parseFloat, now);
  }
}
