/** The canonical records the pipeline reads and writes: claims, persons,
    policies, and the validation, fraud and decision results attached to a
    processed claim. Every field a JSON record may lack is an `Option`;
    string fields stay strings, as in the stored JSON. The JSON field `type`
    of an incident is called `kind` here. */
module Claims {
  import opened Js

  datatype Location = Location(city: Option<string>, state: Option<string>, country: Option<string>)

  datatype Incident = Incident(
    date: Option<string>,
    kind: Option<string>,
    description: Option<string>,
    location: Option<Location>)

  datatype Severity = Error | Warning

  /** The issue codes, in the order the validator checks them. */
  datatype IssueCode =
    | MissingId | MissingClaimant | MissingPolicy | MissingIncident | InvalidAmount
    | PolicyInactive | OutOfCoveragePeriod | OverLimit | PotentialDuplicate

  datatype Issue = Issue(code: IssueCode, severity: Severity, message: string)

  datatype Risk = Low | Medium | High

  datatype FraudAssessment = FraudAssessment(score: int, risk: Risk, reasons: seq<string>)

  datatype Status = Rejected | Settled | Processing

  /** The status string stored on a claim. */
  function StatusName(s: Status): string
  {
    match s
    case Rejected => "rejected"
    case Settled => "settled"
    case Processing => "processing"
  }

  datatype Decision = Decision(status: Status, reason: string, payout: Number)

  datatype Claim = Claim(
    id: Option<string>,
    claimantId: Option<string>,
    policyId: Option<string>,
    incident: Option<Incident>,
    amount: Option<Number>,
    attachments: Option<seq<string>>,
    channel: Option<string>,
    status: Option<string>,
    flags: Option<seq<string>>,
    createdAt: Option<string>,
    updatedAt: Option<string>,
    validation: Option<seq<Issue>>,
    fraud: Option<FraudAssessment>,
    decision: Option<Decision>)

  datatype Name = Name(first: Option<string>, middle: Option<string>, last: Option<string>)

  datatype Address = Address(
    line1: Option<string>,
    line2: Option<string>,
    city: Option<string>,
    state: Option<string>,
    zip: Option<string>)

  datatype Person = Person(
    id: Option<string>,
    email: Option<string>,
    phone: Option<string>,
    ssn: Option<string>,
    name: Option<Name>,
    address: Option<Address>)

  /** `active` is kept as its truthiness. */
  datatype Policy = Policy(
    id: Option<string>,
    personId: Option<string>,
    policyNumber: Option<string>,
    product: Option<string>,
    deductible: Option<Number>,
    coverageLimit: Option<Number>,
    active: bool,
    startDate: Option<string>,
    endDate: Option<string>)

  /** `claim.incident?.f` for the three incident strings. */
  function IncidentDate(c: Claim): Option<string>
  {
    if c.incident.Some? then c.incident.value.date else None
  }

  function IncidentKind(c: Claim): Option<string>
  {
    if c.incident.Some? then c.incident.value.kind else None
  }

  function IncidentDescription(c: Claim): Option<string>
  {
    if c.incident.Some? then c.incident.value.description else None
  }

  /** A parser from a date string to milliseconds since the epoch, standing for
      `new Date(s)`; `None` is an Invalid Date. */
  type DateParser = string -> Option<int>

  /** `new Date(x).getTime()` where `x` may be `undefined` (an Invalid Date). */
  function Timestamp(parse: DateParser, s: Option<string>): Option<int>
  {
    if s.Some? then parse(s.value) else None
  }

  function Abs(x: int): nat
  {
    if x < 0 then -x else x
  }
}
