/** The inbox watcher: a file dropped into the inbox is read as JSON or as
    the key/value text format, renamed when its id is already stored,
    normalised, appended to the claims collection and processed. Listing the
    directory, reading and deleting files and reading the clock are I/O:
    the directory listing, the file's text, `JSON.parse` and the clock
    reading are parameters. */
module Watch {
  import opened Js
  import opened Text
  import opened Seqs
  import opened Claims
  import opened Parsers
  import opened FileDb
  import opened ProcessClaim

  /** The watcher's own `parseTxtClaim`: the ingestion adapter's record, but
      an absent or empty id becomes `CLM-<ms>`. */
  function InboxTextClaim(content: string, parseFloat: ToNumber, at: Instant): Claim
  {
    var f := TextFields(content);
    PaperClaim(f, Some(OrDefault(Get(f, "id"), GeneratedId(at.ms))), parseFloat(AmountText(f)), at.iso)
  }

  /** The line loop of the watcher's `parseTxtClaim`, then the record. */
  method ParseInboxText(content: string, parseFloat: ToNumber, at: Instant) returns (c: Claim)
    ensures c == InboxTextClaim(content, parseFloat, at)
  {
    var obj := CollectFields(SplitLines(content), KeyValue);
    c := PaperClaim(obj, Some(OrDefault(Get(obj, "id"), GeneratedId(at.ms))), parseFloat(AmountText(obj)), at.iso);
  }

  /** A text claim from the inbox always has an id: the one in the text when
      it is non-empty, else `CLM-<ms>`. In every other field it is the claim
      the ingestion adapter builds from the same text. */
  lemma InboxTextId(content: string, parseFloat: ToNumber, at: Instant)
    ensures var f := TextFields(content);
      var c := InboxTextClaim(content, parseFloat, at);
      && Truthy(c.id)
      && (Truthy(Get(f, "id")) ==> c.id == Get(f, "id"))
      && (!Truthy(Get(f, "id")) ==> c.id == Some(GeneratedId(at.ms)))
      && c.(id := Get(f, "id")) == PaperClaim(f, Get(f, "id"), parseFloat(AmountText(f)), at.iso)
  {
    var g := GeneratedId(at.ms);
    assert |g| > 0 by { assert g == "CLM-" + NatToString(at.ms); }
  }

  /** `path.extname` of a file name: the text from its last '.', or "" when it
      has none or the only '.' leading the name is its first character. */
  function Extname(name: string): string
  {
    var i := LastIndexOf(name, '.');
    if i <= 0 then "" else name[i..]
  }

  /** `ext.toLowerCase() === '.json'`: the file is parsed as JSON. */
  predicate IsJsonName(name: string)
  {
    AsciiLower(Extname(name)) == ".json"
  }

  /** The name ends in `suffix`, letters compared without case. */
  predicate EndsWithCI(name: string, suffix: string)
  {
    |suffix| <= |name| && AsciiLower(name[|name| - |suffix|..]) == suffix
  }

  /** `/\.(json|txt)$/i.test(f)`: the file is picked up at all. */
  predicate Polled(name: string)
  {
    EndsWithCI(name, ".json") || EndsWithCI(name, ".txt")
  }

  /** Lowering changes only the letters A-Z. */
  lemma LowerCharKeeps(c: char)
    ensures LowerChar(c) == '.' <==> c == '.'
    ensures LowerChar(c) != '.' ==> c != '.'
  {
  }

  /** The lowered suffix `name[k..]` of length `|w|` equals `w`; a '.' of `w`
      sits at a '.' of the name, and a non-'.' of `w` at a non-'.'. */
  lemma LoweredDots(name: string, k: nat, w: string)
    requires k + |w| == |name| && AsciiLower(name[k..]) == w
    ensures forall j :: 0 <= j < |w| ==> (name[k + j] == '.' <==> w[j] == '.')
  {
    forall j | 0 <= j < |w| ensures name[k + j] == '.' <==> w[j] == '.' {
      assert AsciiLower(name[k..])[j] == LowerChar(name[k..][j]);
      LowerCharKeeps(name[k + j]);
    }
  }

  /** Every file parsed as JSON has been picked up by the poll filter. */
  lemma JsonNamesArePolled(name: string)
    requires IsJsonName(name)
    ensures Polled(name) && EndsWithCI(name, ".json")
  {
    var i := LastIndexOf(name, '.');
    assert |AsciiLower(Extname(name))| == 5;
    assert i > 0 && name[i..] == Extname(name) && i == |name| - 5;
  }

  /** A picked-up name ending in ".json" after at least one other character is
      parsed as JSON. */
  lemma PolledJsonIsJson(name: string)
    requires EndsWithCI(name, ".json") && |name| > 5
    ensures IsJsonName(name)
  {
    var k := |name| - 5;
    LoweredDots(name, k, ".json");
    assert name[k] == '.';
    assert '.' !in name[k + 1..] by {
      forall j | k + 1 <= j < |name| ensures name[j] != '.' {
        assert name[k + (j - k)] != '.';
      }
    }
    assert LastIndexOf(name, '.') == k;
  }

  /** A picked-up name ending in ".txt" goes through the text parser. */
  lemma TxtNamesAreText(name: string)
    requires EndsWithCI(name, ".txt")
    ensures !IsJsonName(name)
  {
    var k := |name| - 4;
    LoweredDots(name, k, ".txt");
    assert name[k] == '.';
    assert LastIndexOf(name, '.') >= k;
  }

  /** A name whose one '.' is its first character has no extension, so even
      ".json" itself is picked up but parsed as text. */
  lemma LeadingDotIsText(name: string)
    requires |name| > 0 && name[0] == '.' && '.' !in name[1..]
    ensures Extname(name) == "" && !IsJsonName(name)
  {
    assert LastIndexOf(name, '.') == 0;
  }

  /** The file named ".json" is picked up and read with the text parser. */
  lemma HiddenJsonIsText(name: string)
    requires name == ".json"
    ensures Polled(name) && !IsJsonName(name)
  {
    assert name[1..] == "json";
    LeadingDotIsText(name);
    assert name[|name| - 5..] == name;
  }

  /** The names `poll` hands to `ingestFile`, in directory order. */
  method PollNames(files: seq<string>) returns (picked: seq<string>)
    ensures picked == Filter(files, Polled)
  {
    picked := [];
    for i := 0 to |files|
      invariant picked == Filter(files[..i], Polled)
    {
      assert files[..i + 1] == files[..i] + [files[i]];
      FilterSnoc(files[..i], files[i], Polled);
      if Polled(files[i]) {
        picked := picked + [files[i]];
      }
    }
    assert files[..|files|] == files;
  }

  /** The claim a dropped file holds: `JSON.parse(raw)` for a JSON name (`None`
      when it throws), the text parser's record otherwise. */
  function FileClaim(name: string, raw: string, parseJson: string -> Option<Claim>, parseFloat: ToNumber, at: Instant): Option<Claim>
  {
    if IsJsonName(name) then parseJson(raw) else Some(InboxTextClaim(raw, parseFloat, at))
  }

  /** `(await readJson(CLAIMS_PATH, [])).some((c) => c.id === id)`. */
  predicate IdTaken(claims: seq<Claim>, id: Option<string>)
  {
    exists j :: 0 <= j < |claims| && claims[j].id == id
  }

  /** The id a dropped claim is stored under: `<id>-<ms>` when its id is
      already stored, its own id otherwise. */
  function StoredId(claims: seq<Claim>, claim: Claim, at: Instant): Option<string>
  {
    if IdTaken(claims, claim.id) then Some(Js.Text(claim.id) + "-" + NatToString(at.ms)) else claim.id
  }

  /** `{ ...claim, id, channel: claim.channel || 'paper', status: 'submitted',
      createdAt: claim.createdAt || now, updatedAt: now }`. */
  function Normalize(claim: Claim, id: Option<string>, now: string): Claim
  {
    claim.(id := id, channel := Or(claim.channel, Some("paper")), status := Some("submitted"),
           createdAt := Or(claim.createdAt, Some(now)), updatedAt := Some(now))
  }

  /** A renamed claim never keeps the stored id, and an untaken id is kept. */
  lemma StoredIdFresh(claims: seq<Claim>, claim: Claim, at: Instant)
    ensures IdTaken(claims, claim.id) ==> StoredId(claims, claim, at) != claim.id
    ensures IdTaken(claims, claim.id) ==>
      StoredId(claims, claim, at).Some? && |StoredId(claims, claim, at).value| > |Js.Text(claim.id)|
    ensures !IdTaken(claims, claim.id) ==> StoredId(claims, claim, at) == claim.id
  {
  }

  /** The normalised claim keeps every other field, is submitted, carries a
      channel and a creation time, and normalising it again changes only its
      update time. */
  lemma NormalizeSpec(claim: Claim, id: Option<string>, now: string, later: string)
    requires now != ""
    ensures var n := Normalize(claim, id, now);
      && SameFacts(n.(id := claim.id, channel := claim.channel, createdAt := claim.createdAt), claim)
      && n.status == Some("submitted") && Truthy(n.channel) && Truthy(n.createdAt)
      && (Truthy(claim.channel) ==> n.channel == claim.channel)
      && (Truthy(claim.createdAt) ==> n.createdAt == claim.createdAt)
      && n.updatedAt == Some(now) && n.validation == claim.validation && n.decision == claim.decision
      && Normalize(n, id, later) == n.(updatedAt := Some(later))
  {
  }

  /** Appending a record whose id is not stored puts it first among the
      records with that id. */
  lemma AppendedIsFirst(s: seq<Claim>, n: Claim)
    requires !IdTaken(s, n.id)
    ensures FirstIndex(s + [n], (c: Claim) => c.id == n.id) == |s|
  {
    assert (s + [n])[|s|] == n;
  }

  /** The claim as `ingestFile` appends it to the stored collection `s`. */
  function Normalized(s: seq<Claim>, claim: Claim, at: Instant): Claim
  {
    Normalize(claim, StoredId(s, claim, at), at.iso)
  }

  /** Line 42 of `ingestFile`: the claim the file holds. */
  method ReadFileClaim(name: string, raw: string, parseJson: string -> Option<Claim>, parseFloat: ToNumber, at: Instant)
    returns (claim: Option<Claim>)
    ensures claim == FileClaim(name, raw, parseJson, parseFloat, at)
  {
    if AsciiLower(Extname(name)) == ".json" {
      claim := parseJson(raw);
    } else {
      var c := ParseInboxText(raw, parseFloat, at);
      claim := Some(c);
    }
  }

  /** Lines 43-45 of `ingestFile`: the id check against the stored claims
      and the normalised record. */
  method NormalizeFor(claimsDb: JsonFile<Claim>, claim: Claim, at: Instant) returns (n: Claim)
    ensures n == Normalized(claimsDb.Contents(), claim, at)
  {
    var existing := claimsDb.ReadJson([]);
    var taken := exists j :: 0 <= j < |existing| && existing[j].id == claim.id;
    var id := if taken then Some(Js.Text(claim.id) + "-" + NatToString(at.ms)) else claim.id;
    n := Normalize(claim, id, at.iso);
  }

  /** `ingestFile`: `None` (nothing stored) when the JSON does not parse;
      otherwise the normalised claim is appended under its possibly renamed
      id and `processClaim` runs on that id. When the stored id was new, the
      appended record is the one processed. */
  method IngestFile(claimsDb: JsonFile<Claim>, personsDb: JsonFile<Person>, policiesDb: JsonFile<Policy>,
                    name: string, raw: string, parseJson: string -> Option<Claim>, parseFloat: ToNumber,
                    parse: DateParser, at: Instant)
    returns (stored: Option<Claim>, processed: Option<Claim>)
    requires forall c: Claim :: claimsDb.key(c) == c.id
    modifies claimsDb
    ensures FileClaim(name, raw, parseJson, parseFloat, at).None? ==>
      stored.None? && processed.None? && claimsDb.data == old(claimsDb.data)
    ensures FileClaim(name, raw, parseJson, parseFloat, at).Some? ==>
      var s := old(claimsDb.Contents());
      var n := Normalized(s, FileClaim(name, raw, parseJson, parseFloat, at).value, at);
      var s1 := s + [n];
      var k := FirstIndex(s1, (c: Claim) => c.id == n.id);
      && stored == Some(n) && processed.Some? && 0 <= k < |s1|
      && processed.value == Merge(s1[k], Evaluate(s1[k], s1, old(personsDb.Contents()), old(policiesDb.Contents()), parse), at.iso)
      && claimsDb.data == Some(s1[k := processed.value])
      && (!IdTaken(s, n.id) ==> k == |s|)
  {
    var claim := ReadFileClaim(name, raw, parseJson, parseFloat, at);
    if claim.None? {
      return None, None;
    }
    var normalized := NormalizeFor(claimsDb, claim.value, at);
    var p := AppendAndProcess(claimsDb, personsDb, policiesDb, normalized, parse, at.iso);
    stored, processed := Some(normalized), Some(p);
  }
}
