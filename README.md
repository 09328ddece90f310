# Claims pipeline: a Dafny model

This project models the decision core of a small insurance-claims service.
Claims reach the service in three ways: the portal posts them as JSON, a
watcher picks them up from an inbox directory, or they are imported from
text, CSV, PDF or dataset files. Each claim is stored in a JSON-file
collection and then processed:

1. the claim, its claimant, its policy and the claimant's history are picked
   from one snapshot of the store;
2. the validator lists issues in a fixed order;
3. the fraud scorer adds up rule weights into a score, a risk tier and reasons;
4. the status rule turns both into `rejected`, `settled` or `processing`
   with a payout;
5. the result is merged into the stored record.

Around this core the model also covers:

- the masking of personal data;
- the server's stats, lookups and intake;
- the connector table and its credential check;
- the upload-name rule.

Modules, one per source file. Modules that mirror no source file hold
shared definitions:

- `Js`: `undefined` as `Option.None`, numbers as `Number = Num(int) | NaN`,
  truthiness, `||` defaults and template rendering.
- `Seqs`, `Text`: `find`, `filter`, `trim`, `split`, `indexOf`,
  `toLowerCase` and the other built-ins the core uses.
- `Claims`: the records (claim, person, policy, issue, decision and the rest).
- `ValidationRules`: `src/rules/validation.js`. Imperative: issues are pushed
  one check at a time.
- `FraudRules`: `src/rules/fraud.js`. Imperative: the score accumulates and
  reasons are pushed.
- `StatusRules`: `src/rules/status.js`. Pure.
- `Masking`: `src/utils/mask.js`. Pure.
- `FileDb`: `src/db/fileDb.js`. A class `JsonFile<T>` whose `data` field is
  the file's content, or `None` when the file was never written. Appends and
  updates change it in place.
- `ProcessClaim`: `src/agent/processClaim.js`. Selection and rule composition
  are functions; the write-back is a method on the store.
- `Parsers`: the ingestion adapters of `src/ingestion/parsers.js`.
- `Watch`: the inbox watcher, `src/agent/watch.js`.
- `Server`: the data logic of `src/server.js`.
- `Connectors`: `src/connectors/index.js`.

What the host supplies is passed in as parameters:

- `new Date(...)` is a `DateParser`, a partial string-to-timestamp function.
- `parseFloat` and `Number` are a `ToNumber`.
- `JSON.parse` is a function that gives `None` where it would throw.
- `Date.now()` and `toISOString()` are an `Instant(ms, iso)`, read once per
  operation.
- Directory listings, credentials and CSV rows are plain values.

Every property is proved for every choice of these parameters.

## Model

| member | source | states |
|---|---|---|
| Js.Max | src/rules/status.js:8 | `Math.max`: NaN if either side is NaN, otherwise the larger of the two |
| Js.Min | src/rules/status.js:9 | `Math.min`: NaN if either side is NaN, otherwise the smaller of the two |
| StatusRules.Decide | src/rules/status.js:1-20 | any error-severity issue gives rejected, "Validation errors", payout 0. Settled exactly when there are no errors, risk is low and amount ≤ 1000. Rejected exactly when there are errors or risk is high. Processing in every other case. A rejection pays 0, the other outcomes pay the computed payout. High risk without errors gives "High fraud risk"; a settled decision carries "Auto-approved: low risk, low amount" and a processing one "Queued for adjuster review" |
| StatusRules.WarningsNeverReject | src/rules/status.js:2 | appending warning-only issues never changes the decision |
| StatusRules.PayoutFormula | src/rules/status.js:7-9 | payout = min(max(0, amount − deductible), limit), where an absent limit means no cap |
| StatusRules.PayoutNonNegative | src/rules/status.js:7-9 | payout ≥ 0 when the limit is absent or non-negative; it is NaN exactly when the amount or the deductible is not a number |
| StatusRules.PayoutBounded | src/rules/status.js:8-9 | with a non-negative deductible, payout ≤ amount (or ≤ 0); payout never exceeds a present coverage limit |
| FraudRules.Tier | src/rules/fraud.js:17 | high iff score ≥ 60, medium iff 30 ≤ score < 60, low iff score < 30 |
| FraudRules.FraudScore | src/rules/fraud.js:3-19 | the step-by-step scorer returns exactly the assessment `Assess` |
| FraudRules.Assess | src/rules/fraud.js:3-19 | the assessment the scorer computes; its contract is stated by `FraudRules.ScoreFormula`, `FraudRules.ScoreBounds`, `FraudRules.ReasonsOrdered` and `FraudRules.ReasonsExact` |
| FraudRules.ScoreFormula | src/rules/fraud.js:7-15 | score = 35·[amount ≥ 20000] + 10·[paper] + 5·[attachments present and empty] + 25·[recent ≥ 3] + 10·[suspicious] |
| FraudRules.ScoreBounds | src/rules/fraud.js:7-15 | 0 ≤ score ≤ 85 |
| FraudRules.ReasonsOrdered | src/rules/fraud.js:5-15 | reasons follow rule order, none repeats, at most five |
| FraudRules.ReasonsExact | src/rules/fraud.js:5-15 | each reason is listed iff its rule fires, and only the five known reasons appear |
| FraudRules.HighRiskNeedsHighAmount | src/rules/fraud.js:7-17 | high risk implies amount ≥ 20000 |
| FraudRules.AbsentAttachmentsNotPenalised | src/rules/fraud.js:9 | a claim without an attachments field gets no "No supporting attachments" reason, and is scored as if it had one attachment |
| FraudRules.NoDateNoRecentClaims | src/rules/fraud.js:11 | with an unparsable or missing createdAt no history claim counts as recent |
| FraudRules.WordingCountsOnce | src/rules/fraud.js:14-15 | any two descriptions that each contain a listed word score the same |
| ValidationRules.CheckFields | src/rules/validation.js:4-27 | the eight conditional pushes yield exactly the field-check issue list |
| ValidationRules.ValidateClaim | src/rules/validation.js:1-36 | the imperative validator returns exactly `Validation`: the field checks, then the duplicate warning |
| ValidationRules.ValidationInOrder | src/rules/validation.js:4-33 | codes appear in the fixed check order, so each at most once; only POTENTIAL_DUPLICATE is a warning, every other issue an error |
| ValidationRules.ValidationReports | src/rules/validation.js:4-33 | each code is reported iff its condition holds (missing id, claimant or policy; incomplete incident; non-number, NaN or ≤ 0 amount; absent or inactive policy; incident, start and end strings present, the incident parses and is before a parsable start or after a parsable end; amount above a numeric limit; some history claim a duplicate) |
| ValidationRules.DuplicateFound | src/rules/validation.js:30 | a duplicate is found iff some history claim has a different id, the same claimant, policy and type, and valid dates at most 30 days apart |
| ValidationRules.DuplicateNamesFirstMatch | src/rules/validation.js:30-33 | the last issue is the warning naming the first matching history claim |
| ValidationRules.Validation | src/rules/validation.js:1-36 | the issue list of `validateClaim`; its contract is stated by `ValidationRules.ValidationInOrder`, `ValidationRules.ValidationReports` and `ValidationRules.DuplicateNamesFirstMatch` |
| ValidationRules.OutsideCoverage | src/rules/validation.js:18-23 | the coverage condition; its contract is stated by `ValidationRules.CoverageIncludesBounds`, `ValidationRules.CoverageCheckedAgainstParsableBound` and `ValidationRules.UnparsableIncidentInCover` |
| ValidationRules.CoverageCheckedAgainstParsableBound | src/rules/validation.js:18-21 | with all three strings present and a parsable incident, an incident before a parsable start, or after a parsable end, is out of coverage even when the other bound does not parse |
| ValidationRules.UnparsableIncidentInCover | src/rules/validation.js:18-21 | an unparsable incident date is never out of coverage, since both comparisons with an invalid Date are false |
| ValidationRules.CoverageIncludesBounds | src/rules/validation.js:18-23 | an incident on the first or last day of cover is not out of coverage |
| ValidationRules.IncompleteIncidentReportedOnce | src/rules/validation.js:7-9 | an incomplete incident yields exactly one MISSING_INCIDENT |
| Masking.MaskLocal | src/utils/mask.js:4 | same length; ≤ 2 characters become all '*'; otherwise first and last kept and the middle starred |
| Masking.MaskEmail | src/utils/mask.js:1-6 | `maskEmail`; its contract is stated by `Masking.MaskEmailShape` and `Masking.MaskEmailNoAt` |
| Masking.MaskEmailShape | src/utils/mask.js:1-6 | an address with '@' becomes the masked local part, '@', and the piece after the first '@' verbatim |
| Masking.MaskEmailNoAt | src/utils/mask.js:2 | an absent, empty or '@'-free address is returned unchanged |
| Masking.ReplaceDigitRuns | src/utils/mask.js:12 | `replace(/\d(?=\d{4})/g, '*')`: same length, and position i becomes '*' exactly when it starts five consecutive digits |
| Masking.ReplaceKeepsNonDigits | src/utils/mask.js:12 | non-digits never change, and every changed character was a digit |
| Masking.ReplaceKeepsLastFour | src/utils/mask.js:12 | the last four characters never change |
| Masking.UnchangedIffNoRun | src/utils/mask.js:12 | the text is unchanged iff it holds no run of five digits |
| Masking.DigitRunMasked | src/utils/mask.js:17 | an all-digit string keeps only its last four digits |
| Masking.MaskPhone | src/utils/mask.js:8-13 | a falsy phone is returned as is; fewer than four digits give one '*' per digit; otherwise the same length with digit runs masked as above |
| Masking.GroupedPhoneUnchanged | src/utils/mask.js:10-12 | a phone ending in four digits with no five-digit run is returned unchanged |
| Masking.GroupedPhoneExample | src/utils/mask.js:12 | "555-123-4567" is returned unchanged |
| Masking.MaskSsn | src/utils/mask.js:15-18 | a falsy SSN is returned as is; otherwise the same length with digit runs masked |
| Masking.GroupedSsnUnchanged | src/utils/mask.js:17 | "123-45-6789" is returned unchanged |
| Masking.MaskPart | src/utils/mask.js:22-23 | a truthy part keeps its first character and length with the rest starred; an empty or absent part becomes absent |
| Masking.MaskName | src/utils/mask.js:20-25 | first and last masked as parts, the middle name kept; an absent name stays absent |
| Masking.MaskAddress | src/utils/mask.js:27-30 | line1 becomes its first character plus "***", or absent; the other fields are kept |
| Masking.MaskClaim | src/utils/mask.js:32-43 | the claim is returned unchanged; an absent person stays absent; otherwise the id is kept and email, phone, SSN, name and address are masked |
| FileDb.JsonFile.constructor | src/db/fileDb.js:8-17 | a fresh collection has never been written |
| FileDb.JsonFile.ReadJson | src/db/fileDb.js:8-17 | a collection never written reads as the default; otherwise as its content |
| FileDb.JsonFile.WriteJson | src/db/fileDb.js:19-24 | the collection now holds exactly the items, whatever default a later read supplies |
| FileDb.JsonFile.AppendToArray | src/db/fileDb.js:26-31 | the new content is the old content plus `obj` at the end, and `obj` is returned |
| FileDb.AppendDuplicateId | src/db/fileDb.js:26-31 | appending two records with the same id stores both: there is no duplicate check |
| FileDb.JsonFile.UpdateById | src/db/fileDb.js:33-41 | with no record of the id, returns none and writes nothing. Otherwise only the first record with the id is replaced by the updater's result, which is returned. The length and every other record stay the same |
| ProcessClaim.Merge | src/agent/processClaim.js:32-39 | the merged record has the decision's status, the decision, fraud, validation and updatedAt; every other field is kept |
| ProcessClaim.RunRules | src/agent/processClaim.js:24-30 | the three engines run on one snapshot, and `decide` is fed exactly that validation and fraud |
| ProcessClaim.StoreVerdict | src/agent/processClaim.js:32-39 | the first claim with the id is replaced by its merge with the verdict; with no such claim nothing is written |
| ProcessClaim.ProcessClaim | src/agent/processClaim.js:16-52 | an unknown id returns null and writes nothing. Otherwise the first claim with the id is replaced by the merge of its own evaluation against the loaded snapshot, and that record is returned |
| ProcessClaim.SelectionIsFirstMatch | src/agent/processClaim.js:24-25 | the person and policy are the first records with the claim's claimantId and policyId, or absent when none has it |
| ProcessClaim.HistoryHoldsClaimant | src/agent/processClaim.js:26 | the history holds the claim itself and only stored claims of the same claimant |
| ProcessClaim.EvaluateAlike | src/agent/processClaim.js:22-30 | the verdict depends only on the claim facts of the claim and the store, not on the fields the merge writes |
| ProcessClaim.ReprocessSameVerdict | src/agent/processClaim.js:22-39 | processing a merged record again gives the same validation, fraud and decision |
| ProcessClaim.AppendAndProcess | src/agent/watch.js:46-47 | after appending a claim and processing its id, the first record with that id is merged. That record is the new one exactly when no earlier record holds the id |
| Parsers.KeyValueSpec | src/ingestion/parsers.js:7-9 | a line with an empty pre-colon part is skipped; otherwise the key is the trimmed text before the first ':' and the value the trimmed rest (colons included) |
| Parsers.CollectHas | src/ingestion/parsers.js:6-10 | a key is in the object iff some line sets it |
| Parsers.CollectLastWins | src/ingestion/parsers.js:6-10 | the value of a key is the one set by its last line |
| Parsers.CollectFields | src/ingestion/parsers.js:5-10 | the line loop fills exactly the object `Collect` describes |
| Parsers.AmountText | src/ingestion/parsers.js:11 | `amount`, else `claimAmount`, else "0" |
| Parsers.PaperClaim | src/ingestion/parsers.js:12-29 | status submitted, channel paper, empty attachments and flags, country defaulting to "US", fields copied from the object, both timestamps the current time |
| Parsers.ParseTxtClaim | src/ingestion/parsers.js:4-30 | the text adapter returns the paper claim of the collected fields and the parsed amount |
| Parsers.CsvClaims | src/ingestion/parsers.js:34-51 | one claim per row, in row order, each the paper claim of its row |
| Parsers.CsvRowLikeText | src/ingestion/parsers.js:34-51 | a CSV row with the same fields as a text file gives the same claim |
| Parsers.DatasetPolicyId | src/ingestion/parsers.js:59-60 | "POL-" + the trimmed policy number, absent when it is blank |
| Parsers.DatasetDeductible | src/ingestion/parsers.js:67 | never 0; 500 when the field is falsy or converts to a falsy number; otherwise the converted number |
| Parsers.DatasetPolicy | src/ingestion/parsers.js:62-72 | the id, the policy number, that deductible, limit 50000, active, 2010-01-01 to 2030-12-31 |
| Parsers.IsoDate | src/ingestion/parsers.js:77-79 | a date without '-' has no ISO form |
| Parsers.IsoDateOfParts | src/ingestion/parsers.js:78-79 | "d-m-y…" with non-empty parts becomes "y-mm-dd", with month and day padded to two digits |
| Parsers.IsoDateNeedsThreeParts | src/ingestion/parsers.js:78-79 | fewer than three pieces, or an empty one, gives no date |
| Parsers.DescriptionParts | src/ingestion/parsers.js:81-84 | the informative collision, severity and authorities parts, in that order, at most three |
| Parsers.DatasetClaimShape | src/ingestion/parsers.js:87-106 | the claim id is built from the clock and the 1-based row number; no claimant; channel portal; status submitted; the ISO date, the type (default "AutoCollision"), the description and a numeric amount |
| Parsers.DatasetClaimsRows | src/ingestion/parsers.js:58-107 | one claim per row, in row order |
| Parsers.ImportDataset | src/ingestion/parsers.js:54-109 | the row loop returns exactly the claims and the de-duplicated policies |
| Parsers.DatasetIdsDistinct | src/ingestion/parsers.js:87 | two rows never get the same claim id |
| Parsers.DatasetPoliciesUnique | src/ingestion/parsers.js:61-73 | the policies have distinct ids |
| Parsers.DatasetPoliciesCover | src/ingestion/parsers.js:61-73 | every row's policy id has an entry |
| Parsers.DatasetPoliciesFirstRowWins | src/ingestion/parsers.js:61-73 | each policy is built from the first row with its id |
| Parsers.DatasetClaimPoliciesImported | src/ingestion/parsers.js:59-73 | every imported claim's policy id is among the imported policies |
| Parsers.ParsePdfClaim | src/ingestion/parsers.js:111-138 | the PDF loop stores each matching line's value under the key as spelled in the text, and builds the claim from exactly those entries |
| Parsers.PdfMatchSpec | src/ingestion/parsers.js:116 | a match names a listed key, which the line starts with case-insensitively; the captured spelling is the line's own prefix; the value is the trimmed text after the separator |
| Parsers.PdfAmountLine | src/ingestion/parsers.js:116 | a line starting with "amount" in any case, followed by a separator and a value, matches the amount key |
| Parsers.PdfAmountCaseAsWritten | src/ingestion/parsers.js:116-119 | as written, an amount line spelled other than "amount" gives parseFloat("0") |
| Parsers.ParsePdfClaimCanonical | src/ingestion/parsers.js:116-119 | the corrected loop stores each value under the listed key's own spelling |
| Parsers.PdfAmountCaseCorrected | src/ingestion/parsers.js:116-119 | corrected, an amount line in any case gives parseFloat of its value |
| Parsers.PdfAmountCaseExample | src/ingestion/parsers.js:116-119 | "Amount: 500" gives 0 as written and 500 corrected |
| Watch.ParseInboxText | src/agent/watch.js:11-37 | the watcher's text parser returns exactly the inbox text claim |
| Watch.InboxTextId | src/agent/watch.js:20 | the id is always truthy: the text's own id when truthy, else "CLM-" + the clock; otherwise the claim equals the ingestion adapter's |
| Watch.JsonNamesArePolled | src/agent/watch.js:40-54 | every name parsed as JSON is also picked by the poll filter |
| Watch.PolledJsonIsJson | src/agent/watch.js:40-54 | a polled ".json" name with a non-empty stem is parsed as JSON |
| Watch.TxtNamesAreText | src/agent/watch.js:40-42 | a ".txt" name goes through the text parser |
| Watch.LeadingDotIsText | src/agent/watch.js:40 | a name whose only dot is its first character has no extension, so it is text |
| Watch.HiddenJsonIsText | src/agent/watch.js:40-54 | the file named ".json" is polled but parsed as text |
| Watch.PollNames | src/agent/watch.js:50-59 | the loop ingests exactly the names ending in .json or .txt, in any case, in listing order |
| Watch.Extname | src/agent/watch.js:40 | `path.extname`; its contract is stated by `Watch.JsonNamesArePolled`, `Watch.PolledJsonIsJson`, `Watch.LeadingDotIsText` and `Watch.HiddenJsonIsText` |
| Watch.StoredId | src/agent/watch.js:43-44 | the id under which an ingested claim is stored; its contract is stated by `Watch.StoredIdFresh` |
| Watch.Normalize | src/agent/watch.js:45 | the normalised record; its contract is stated by `Watch.NormalizeSpec` |
| Watch.StoredIdFresh | src/agent/watch.js:43-44 | a taken id is replaced by a strictly longer one; a free id is kept |
| Watch.NormalizeSpec | src/agent/watch.js:45 | status submitted. Channel and createdAt are kept when truthy, else filled, so always truthy. updatedAt is now. The other claim facts and results are kept. Normalising again changes only updatedAt |
| Watch.ReadFileClaim | src/agent/watch.js:40-42 | ".json" files (by extension, any case) go through JSON.parse, all others through the text parser |
| Watch.NormalizeFor | src/agent/watch.js:43-45 | the normalised claim under the stored id, computed from the current store |
| Watch.IngestFile | src/agent/watch.js:39-48 | unparsable JSON writes nothing. Otherwise the normalised claim is appended and the first record with its id is processed; that record is the new one when the id was free |
| Server.Intake | src/server.js:82-89 | the intake record; its contract is stated by `Server.IntakeSpec` |
| Server.IntakeSpec | src/server.js:82-89 | channel portal, status submitted, both timestamps the clock, a truthy id (the body's if truthy, else "CLM-" + the clock), the other body fields kept; intake keeps its own id |
| Server.PostClaim | src/server.js:79-96 | an unparsable body writes nothing and answers "Invalid JSON"; otherwise the intake claim is appended and processed, and the processed record returned |
| Server.LookupClaim | src/server.js:75 | the claim lookup; its contract is stated by `Server.LookupClaimSpec` |
| Server.LookupPolicy | src/server.js:114-117 | the policy and person lookup; its contract is stated by `Server.LookupPolicySpec` |
| Server.LookupClaimSpec | src/server.js:72-77 | the first claim with the id, or not found when no claim has it |
| Server.LookupPolicySpec | src/server.js:111-119 | the first policy whose id or policyNumber matches, else not found. Its person is the first with the policy's personId, possibly absent |
| Server.Stats | src/server.js:98-108 | the accumulator loop returns exactly the fold `StatsOf` |
| Server.StatsOf | src/server.js:100-106 | the `reduce` over the claims; its contract is stated by `Server.StatsSpec`, `Server.StatsKeys`, `Server.StatusCountersSumToCount` and `Server.CountStatusCountsTwice` |
| Server.Tally | src/server.js:101-104 | one `reduce` step; its contract is stated by `Server.TallyStep` |
| Server.TallyStep | src/server.js:101-104 | one step adds 1 to count, `amount \|\| 0` to amount, `decision.payout \|\| 0` to payout and 1 to the claim's status counter |
| Server.StatsSpec | src/server.js:100-106 | count = number of claims, amount and payout the sums, each status counter the number of claims with that status |
| Server.StatsKeys | src/server.js:103 | a status key is present iff some claim has that status |
| Server.StatusCountersSumToCount | src/server.js:100-106 | when no status is "count", "amount" or "payout", the status counters sum to count |
| Server.CountStatusCountsTwice | src/server.js:101-103 | a claim whose status is "count" makes count 2 |
| Connectors.TableShape | src/connectors/index.js:7-12 | the ids are distinct; storage connectors have a path and need an access token; the others need an API key and a base URL |
| Connectors.GetConnector | src/connectors/index.js:26 | `getConnector`; its contract is stated by `Connectors.GetConnectorSpec` |
| Connectors.IsConnected | src/connectors/index.js:28-34 | `isConnected`; its contract is stated by `Connectors.IsConnectedSpec`, `Connectors.StorageConnected` and `Connectors.PasConnected` |
| Connectors.GetConnectorSpec | src/connectors/index.js:26 | the row with that id, or none when no row has it |
| Connectors.FilledSpec | src/connectors/index.js:33 | a field is filled iff it is a string holding a non-whitespace character |
| Connectors.IsConnectedSpec | src/connectors/index.js:28-34 | false for an unknown connector or a missing entry; otherwise true iff every required field is filled |
| Connectors.StorageConnected | src/connectors/index.js:8-33 | a storage connector is connected iff its access token is filled |
| Connectors.PasConnected | src/connectors/index.js:10-33 | a policy-administration connector is connected iff its API key and base URL are filled |
| Connectors.ListFiles | src/connectors/index.js:36-43 | empty for an unknown or non-storage connector; otherwise one entry per directory entry, with the path under the connector's directory |
| Connectors.SafeName | src/connectors/index.js:50 | the sanitised upload name; its contract is stated by `Connectors.SafeNameSpec` and `Connectors.SafeNameFixed` |
| Connectors.SafeNameSpec | src/connectors/index.js:50 | same length, only `[A-Za-z0-9._-]`, allowed characters kept, every other one '_' |
| Connectors.SafeNameFixed | src/connectors/index.js:50 | a name is kept iff it is all allowed characters, so sanitising twice is sanitising once |
| Connectors.SaveUpload | src/connectors/index.js:45-54 | "Unsupported connector" for an unknown or non-storage connector; otherwise the safe name and the connector path + "/" + the safe name |
| Connectors.SavedUploadListed | src/connectors/index.js:42-53 | a saved upload appears in the listing with the same name and path |

## Left out

- Files and JSON:
  - reading and writing files, creating directories, reading directory listings and deleting inbox files are I/O;
  - the store holds records, not their JSON text;
  - a corrupt collection file, which makes `readJson` throw, is not modelled;
  - a failed write is not modelled: the upload names "", "." and "..", which `SafeName` keeps, make `fs.writeFile` throw, while `Connectors.SaveUpload` returns a success.
- JSON value types: every record field has one type. A parsed value of another type is outside the model, and the source gives such values behaviour that no choice of the `JSON.parse` parameter reproduces:
  - a string amount such as "25000" gets the +35 and "High claimed amount" from the fraud rule, because `>=` converts it;
  - a string amount turns the stats total into a string, because `+=` concatenates;
  - a string coverage limit skips OVER_LIMIT, since it is not a number, yet still caps the payout, since `Math.min` converts it;
  - a status named after an `Object.prototype` property such as "constructor" makes its stats counter a string; inherited keys are modelled nowhere;
  - fields outside the record, which the spreads of the intake, the watcher and the merge carry along, are dropped.
- HTTP: routing, `send`, static files, body and multipart parsing, the connector routes and `listen` have no data logic beyond the modelled functions. Taking the id from the URL path is not modelled; lookups take the id directly.
- Notifications: e-mail, Slack and Teams delivery and their fan-out are network calls. The `masked` value built in `processClaim` is never used by the code, so it is not computed there (`Masking.MaskClaim` models it on its own).
- Concurrency and timing:
  - the parallel reads and the `setInterval` polling;
  - the lost update when two read-modify-write cycles interleave;
  - the model is sequential.
- Parameters:
  - dates are parsed by a parameter;
  - `parseFloat`, `Number` and `JSON.parse` are parameters;
  - the clock is read once per operation, while the source reads it separately for `createdAt`, `updatedAt` and the generated id.
- Numbers have no fractions: amounts, deductibles and limits are integers or NaN, and floating-point rounding is not modelled.
- Strings:
  - they are sequences of code points, so an astral character counts as one character where JavaScript counts two UTF-16 units;
  - `SafeName` therefore writes one '_' where the source writes two;
  - `toLowerCase` is lowering of ASCII letters only.
- File names: `Extname` follows `path.extname` for names with at most one leading dot. Names made only of dots such as "..", and directory parts, are not modelled.
- Poll errors: `poll` stops at the first file whose ingestion throws. The model covers the name filter (`Watch.PollNames`) and the ingestion of one file (`Watch.IngestFile`), not the loop that runs them, so this abort is not modelled.
- Credentials:
  - a falsy entry counts as absent, and an entry that is not an object as one without fields;
  - keys inherited from `Object.prototype` (`__proto__` and the like) are not modelled.
- Libraries:
  - CSV decoding by `csv-parse` and text extraction by `pdf-parse` are library code;
  - CSV rows and PDF text are inputs;
  - rows arrive already trimmed.
- Scripts: `src/agent/run.js` and `src/scripts/seed.js` are I/O drivers and are not part of this model.
- Watch.NormalizeSpec: assumes a non-empty clock string, which `toISOString()` always yields.
- Watch.PolledJsonIsJson: states only names longer than ".json", because the name ".json" alone has no extension (`Watch.HiddenJsonIsText`).

## Findings

| source | as written | input that shows it | evidently intended | confidence | as-written member | corrected member |
|---|---|---|---|---|---|---|
| src/ingestion/parsers.js:116-119 | the key is matched case-insensitively but stored under the spelling found in the text, while the amount is read only from `kv.amount` | a PDF line "Amount: 500" | amount 500: a key matched in any case should be read under its listed name | not executed | Parsers.PdfAmountCaseAsWritten | Parsers.PdfAmountCaseCorrected |
