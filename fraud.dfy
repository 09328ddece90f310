/** The fraud scorer: five additive rules, each adding a fixed weight and a
    reason when it fires, and a three-tier risk read off the total. */
module FraudRules {
  import opened Js
  import opened Text
  import opened Seqs
  import opened Claims

  /** Words whose presence in the lower-cased description is suspicious. */
  const SuspiciousWords: seq<string> := ["cash", "urgent", "lost", "no receipts", "stolen yesterday", "unattended"]

  const SixMonthsMs: nat := 180 * 24 * 60 * 60 * 1000

  const HighAmountReason := "High claimed amount"
  const PaperReason := "Paper-based submission"
  const NoAttachmentsReason := "No supporting attachments"
  const RecentClaimsReason := "Multiple claims in 6 months"
  const WordingReason := "Suspicious wording"

  /** The reasons in evaluation order. */
  const AllReasons: seq<string> := [HighAmountReason, PaperReason, NoAttachmentsReason, RecentClaimsReason, WordingReason]

  /** `claim.amount >= 20000`. */
  predicate HighAmount(claim: Claim)
  {
    AtLeast(claim.amount, 20000)
  }

  predicate PaperChannel(claim: Claim)
  {
    claim.channel == Some("paper")
  }

  /** `claim.attachments?.length === 0`: a present, empty list only. */
  predicate NoAttachments(claim: Claim)
  {
    claim.attachments == Some([])
  }

  /** A history claim of the same claimant created strictly less than 180 days
      from this one, both creation dates valid. */
  predicate Recent(claim: Claim, parse: DateParser, c: Claim)
  {
    var a := Timestamp(parse, c.createdAt);
    var b := Timestamp(parse, claim.createdAt);
    c.claimantId == claim.claimantId && a.Some? && b.Some? && Abs(a.value - b.value) < SixMonthsMs
  }

  function RecentCount(claim: Claim, history: seq<Claim>, parse: DateParser): nat
  {
    Count(history, (c: Claim) => Recent(claim, parse, c))
  }

  /** `(claim.incident?.description || '').toLowerCase()`. */
  function LoweredDescription(claim: Claim): string
  {
    AsciiLower(OrDefault(IncidentDescription(claim), ""))
  }

  predicate SuspiciousWording(claim: Claim)
  {
    Any(SuspiciousWords, (w: string) => Contains(LoweredDescription(claim), w))
  }

  function Points(fired: bool, weight: nat): nat
  {
    if fired then weight else 0
  }

  /** The score from the five rule outcomes, in evaluation order. */
  function ScoreOf(high: bool, paper: bool, noAttachments: bool, recent: bool, wording: bool): nat
  {
    Points(high, 35) + Points(paper, 10) + Points(noAttachments, 5) + Points(recent, 25) + Points(wording, 10)
  }

  /** `if (cond) reasons.push(reason)`. */
  function PushReason(reasons: seq<string>, cond: bool, reason: string): seq<string>
  {
    if cond then reasons + [reason] else reasons
  }

  /** The reasons pushed, given the five rule outcomes. */
  function ReasonsOf(high: bool, paper: bool, noAttachments: bool, recent: bool, wording: bool): seq<string>
  {
    var r := PushReason([], high, HighAmountReason);
    var r := PushReason(r, paper, PaperReason);
    var r := PushReason(r, noAttachments, NoAttachmentsReason);
    var r := PushReason(r, recent, RecentClaimsReason);
    PushReason(r, wording, WordingReason)
  }

  /** The risk tier of a score. */
  function Tier(score: int): (risk: Risk)
    ensures risk == High <==> score >= 60
    ensures risk == Medium <==> 30 <= score < 60
    ensures risk == Low <==> score < 30
  {
    if score >= 60 then High else if score >= 30 then Medium else Low
  }

  /** What `fraudScore` returns. */
  function Assess(claim: Claim, history: seq<Claim>, parse: DateParser): FraudAssessment
  {
    var high, paper, none, recent, wording :=
      HighAmount(claim), PaperChannel(claim), NoAttachments(claim),
      RecentCount(claim, history, parse) >= 3, SuspiciousWording(claim);
    var score := ScoreOf(high, paper, none, recent, wording);
    FraudAssessment(score, Tier(score), ReasonsOf(high, paper, none, recent, wording))
  }

  /** `fraudScore`: adds up the score and pushes the reasons rule by rule. */
  method FraudScore(claim: Claim, history: seq<Claim>, parse: DateParser) returns (result: FraudAssessment)
    ensures result == Assess(claim, history, parse)
  {
    var score := 0;
    var reasons := [];
    if AtLeast(claim.amount, 20000) { score := score + 35; reasons := reasons + [HighAmountReason]; }
    if claim.channel == Some("paper") { score := score + 10; reasons := reasons + [PaperReason]; }
    if claim.attachments == Some([]) { score := score + 5; reasons := reasons + [NoAttachmentsReason]; }
    var recentCount := Count(history, (c: Claim) => Recent(claim, parse, c));
    if recentCount >= 3 { score := score + 25; reasons := reasons + [RecentClaimsReason]; }
    var desc := AsciiLower(OrDefault(IncidentDescription(claim), ""));
    if Any(SuspiciousWords, (w: string) => Contains(desc, w)) { score := score + 10; reasons := reasons + [WordingReason]; }
    var risk := if score >= 60 then High else if score >= 30 then Medium else Low;
    result := FraudAssessment(score, risk, reasons);
  }

  /** The score lies between 0 and 85. */
  lemma ScoreBounds(claim: Claim, history: seq<Claim>, parse: DateParser)
    ensures 0 <= Assess(claim, history, parse).score <= 85
  {
  }

  /** The score is the weighted sum of the rules that fire. */
  lemma ScoreFormula(claim: Claim, history: seq<Claim>, parse: DateParser)
    ensures Assess(claim, history, parse).score
      == (if HighAmount(claim) then 35 else 0)
       + (if PaperChannel(claim) then 10 else 0)
       + (if NoAttachments(claim) then 5 else 0)
       + (if RecentCount(claim, history, parse) >= 3 then 25 else 0)
       + (if SuspiciousWording(claim) then 10 else 0)
  {
  }

  /** Position of a reason in evaluation order. */
  function ReasonRank(r: string): int
  {
    if r == HighAmountReason then 0
    else if r == PaperReason then 1
    else if r == NoAttachmentsReason then 2
    else if r == RecentClaimsReason then 3
    else if r == WordingReason then 4
    else 5
  }

  /** Reasons appear in evaluation order, without repeats. */
  predicate InRuleOrder(reasons: seq<string>)
  {
    forall i, j :: 0 <= i < j < |reasons| ==> ReasonRank(reasons[i]) < ReasonRank(reasons[j])
  }

  predicate RanksBelow(reasons: seq<string>, k: int)
  {
    forall i :: 0 <= i < |reasons| ==> ReasonRank(reasons[i]) < k
  }

  lemma PushReasonInOrder(reasons: seq<string>, cond: bool, reason: string)
    requires InRuleOrder(reasons) && RanksBelow(reasons, ReasonRank(reason))
    ensures InRuleOrder(PushReason(reasons, cond, reason))
    ensures RanksBelow(PushReason(reasons, cond, reason), ReasonRank(reason) + 1)
  {
    var r := PushReason(reasons, cond, reason);
    assert forall i :: 0 <= i < |reasons| ==> r[i] == reasons[i];
  }

  lemma PushReasonHas(reasons: seq<string>, cond: bool, reason: string, x: string)
    ensures x in PushReason(reasons, cond, reason) <==> x in reasons || (cond && x == reason)
  {
  }

  lemma ReasonRanks()
    ensures ReasonRank(HighAmountReason) == 0 && ReasonRank(PaperReason) == 1
    ensures ReasonRank(NoAttachmentsReason) == 2 && ReasonRank(RecentClaimsReason) == 3
    ensures ReasonRank(WordingReason) == 4
  {
    assert HighAmountReason[0] != PaperReason[0];
    assert HighAmountReason[0] != NoAttachmentsReason[0] && PaperReason[0] != NoAttachmentsReason[0];
    assert HighAmountReason[0] != RecentClaimsReason[0] && PaperReason[0] != RecentClaimsReason[0]
      && NoAttachmentsReason[0] != RecentClaimsReason[0];
    assert HighAmountReason[0] != WordingReason[0] && PaperReason[0] != WordingReason[0]
      && NoAttachmentsReason[0] != WordingReason[0] && RecentClaimsReason[0] != WordingReason[0];
  }

  /** The reasons follow the rule order, so none repeats and at most five appear. */
  lemma ReasonsOrdered(high: bool, paper: bool, noAttachments: bool, recent: bool, wording: bool)
    ensures InRuleOrder(ReasonsOf(high, paper, noAttachments, recent, wording))
    ensures |ReasonsOf(high, paper, noAttachments, recent, wording)| <= 5
  {
    ReasonRanks();
    var r0 := PushReason([], high, HighAmountReason);
    PushReasonInOrder([], high, HighAmountReason);
    var r1 := PushReason(r0, paper, PaperReason);
    PushReasonInOrder(r0, paper, PaperReason);
    var r2 := PushReason(r1, noAttachments, NoAttachmentsReason);
    PushReasonInOrder(r1, noAttachments, NoAttachmentsReason);
    var r3 := PushReason(r2, recent, RecentClaimsReason);
    PushReasonInOrder(r2, recent, RecentClaimsReason);
    PushReasonInOrder(r3, wording, WordingReason);
  }

  /** A reason is listed exactly when its rule fires. */
  lemma ReasonsExact(high: bool, paper: bool, noAttachments: bool, recent: bool, wording: bool)
    ensures var r := ReasonsOf(high, paper, noAttachments, recent, wording);
      && (HighAmountReason in r <==> high)
      && (PaperReason in r <==> paper)
      && (NoAttachmentsReason in r <==> noAttachments)
      && (RecentClaimsReason in r <==> recent)
      && (WordingReason in r <==> wording)
      && forall x :: x in r ==> x in AllReasons
  {
    ReasonRanks();
  }

  /** High risk needs the high-amount rule: the other four reach at most 50. */
  lemma HighRiskNeedsHighAmount(claim: Claim, history: seq<Claim>, parse: DateParser)
    requires Assess(claim, history, parse).risk == High
    ensures AtLeast(claim.amount, 20000)
  {
  }

  /** A claim without an attachments field gets no points for missing
      attachments: it is assessed exactly as if it had one attachment. */
  lemma AbsentAttachmentsNotPenalised(claim: Claim, history: seq<Claim>, parse: DateParser)
    requires claim.attachments.None?
    ensures NoAttachmentsReason !in Assess(claim, history, parse).reasons
    ensures Assess(claim, history, parse) == Assess(claim.(attachments := Some(["file"])), history, parse)
  {
    var recent := RecentCount(claim, history, parse) >= 3;
    ReasonsExact(HighAmount(claim), PaperChannel(claim), false, recent, SuspiciousWording(claim));
    var other := claim.(attachments := Some(["file"]));
    FilterSame(history, (c: Claim) => Recent(other, parse, c), (c: Claim) => Recent(claim, parse, c));
    assert !NoAttachments(other) && !NoAttachments(claim);
    assert LoweredDescription(other) == LoweredDescription(claim);
    assert SuspiciousWording(other) == SuspiciousWording(claim);
  }

  /** Without a valid creation date no history claim counts as recent. */
  lemma NoDateNoRecentClaims(claim: Claim, history: seq<Claim>, parse: DateParser)
    requires Timestamp(parse, claim.createdAt).None?
    ensures RecentCount(claim, history, parse) == 0
  {
    FilterNone(history, (c: Claim) => Recent(claim, parse, c));
  }

  /** Suspicious wording counts once: two descriptions that each contain some
      listed word score the same, however many words they contain. */
  lemma WordingCountsOnce(claim: Claim, history: seq<Claim>, parse: DateParser, d1: string, d2: string, i1: nat, i2: nat)
    requires claim.incident.Some?
    requires i1 < |SuspiciousWords| && Contains(AsciiLower(d1), SuspiciousWords[i1])
    requires i2 < |SuspiciousWords| && Contains(AsciiLower(d2), SuspiciousWords[i2])
    ensures var a := claim.(incident := Some(claim.incident.value.(description := Some(d1))));
      var b := claim.(incident := Some(claim.incident.value.(description := Some(d2))));
      Assess(a, history, parse) == Assess(b, history, parse)
  {
    var a := claim.(incident := Some(claim.incident.value.(description := Some(d1))));
    var b := claim.(incident := Some(claim.incident.value.(description := Some(d2))));
    assert d1 != "" by { assert |AsciiLower(d1)| >= |SuspiciousWords[i1]| > 0; }
    assert d2 != "" by { assert |AsciiLower(d2)| >= |SuspiciousWords[i2]| > 0; }
    assert LoweredDescription(a) == AsciiLower(d1);
    assert LoweredDescription(b) == AsciiLower(d2);
    var pa := (w: string) => Contains(LoweredDescription(a), w);
    var pb := (w: string) => Contains(LoweredDescription(b), w);
    assert pa(SuspiciousWords[i1]) && pb(SuspiciousWords[i2]);
    FilterSame(history, (c: Claim) => Recent(a, parse, c), (c: Claim) => Recent(b, parse, c));
  }
}
