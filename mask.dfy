/** Masking of personal data before it leaves the pipeline: e-mail local
    parts, phone and social security numbers, names and the first address
    line. Every transform is a pure function over strings and records. */
module Masking {
  import opened Js
  import opened Text
  import opened Seqs
  import opened Claims

  /** `'*'.repeat(n)`. */
  function Stars(n: nat): (r: string)
    ensures |r| == n && forall i :: 0 <= i < n ==> r[i] == '*'
  {
    seq(n, _ => '*')
  }

  /** The masked local part: up to two characters become stars, otherwise the
      first and last characters stay and the middle is starred. */
  function MaskLocal(user: string): (r: string)
    ensures |r| == |user|
    ensures |user| <= 2 ==> r == Stars(|user|)
    ensures |user| > 2 ==>
      r[0] == user[0] && r[|r| - 1] == user[|user| - 1] && forall i :: 0 < i < |r| - 1 ==> r[i] == '*'
  {
    if |user| <= 2 then Stars(|user|) else [user[0]] + Stars(|user| - 2) + [user[|user| - 1]]
  }

  /** `maskEmail`: an absent or empty address, or one without '@', is returned
      as is; otherwise the piece before the first '@' is masked and joined to
      the piece between the first and the second '@'. */
  function MaskEmail(email: Option<string>): Option<string>
  {
    if !Truthy(email) || '@' !in email.value then email
    else
      var parts := Split(email.value, '@');
      Some(MaskLocal(parts[0]) + "@" + parts[1])
  }

  /** The text after the first '@', up to the next '@' if there is one. */
  function Domain(s: string): string
    requires '@' in s
  {
    var t := s[IndexOf(s, '@') + 1..];
    var j := IndexOf(t, '@');
    if j < 0 then t else t[..j]
  }

  /** The masked address keeps the local part's length, and the domain verbatim. */
  lemma MaskEmailShape(s: string)
    requires s != "" && '@' in s
    ensures var user := s[..IndexOf(s, '@')];
      MaskEmail(Some(s)) == Some(MaskLocal(user) + "@" + Domain(s))
      && |MaskLocal(user)| == |user|
  {
    SplitHead(s, '@');
    var t := s[IndexOf(s, '@') + 1..];
    if '@' in t {
      SplitHead(t, '@');
    }
  }

  /** An address without '@', and an absent or empty one, is unchanged. */
  lemma MaskEmailNoAt(email: Option<string>)
    requires !Truthy(email) || '@' !in email.value
    ensures MaskEmail(email) == email
  {
  }

  /** Position `i` starts a match of `\d(?=\d{4})`: a digit followed by four
      more digits. */
  predicate MaskedAt(s: string, i: int)
  {
    0 <= i && i + 5 <= |s| && forall k :: i <= k < i + 5 ==> IsDigit(s[k])
  }

  /** `s.replace(/\d(?=\d{4})/g, '*')`. The lookahead consumes nothing, so the
      scan tries every position of the original string in turn. */
  function ReplaceDigitRuns(s: string): (r: string)
    ensures |r| == |s|
    ensures forall i :: 0 <= i < |s| ==> r[i] == if MaskedAt(s, i) then '*' else s[i]
  {
    if s == [] then []
    else
      var rest := ReplaceDigitRuns(s[1..]);
      var r := [if MaskedAt(s, 0) then '*' else s[0]] + rest;
      assert forall i :: 1 <= i < |s| ==> (MaskedAt(s, i) <==> MaskedAt(s[1..], i - 1)) by {
        forall i | 1 <= i < |s| ensures MaskedAt(s, i) <==> MaskedAt(s[1..], i - 1) {
          assert forall k :: i <= k < i + 5 && k < |s| ==> s[k] == s[1..][k - 1];
        }
      }
      assert forall i :: 1 <= i < |s| ==> r[i] == rest[i - 1];
      r
  }

  /** Non-digits are never replaced, and a replaced character was a digit. */
  lemma ReplaceKeepsNonDigits(s: string)
    ensures forall i :: 0 <= i < |s| && !IsDigit(s[i]) ==> ReplaceDigitRuns(s)[i] == s[i]
    ensures forall i :: 0 <= i < |s| && ReplaceDigitRuns(s)[i] != s[i] ==> IsDigit(s[i])
  {
  }

  /** The last four digits of a number are never masked. */
  lemma ReplaceKeepsLastFour(s: string)
    ensures forall i :: |s| - 4 <= i < |s| && 0 <= i ==> ReplaceDigitRuns(s)[i] == s[i]
  {
  }

  function Digits(s: string): string
  {
    Filter(s, IsDigit)
  }

  /** `maskPhone`: fewer than four digits become one star per digit (the
      punctuation is dropped); otherwise digit runs are masked in place. */
  function MaskPhone(phone: Option<string>): (r: Option<string>)
    ensures !Truthy(phone) ==> r == phone
    ensures Truthy(phone) && |Digits(phone.value)| < 4 ==> r == Some(Stars(|Digits(phone.value)|))
    ensures Truthy(phone) && |Digits(phone.value)| >= 4 ==>
      r.Some? && |r.value| == |phone.value| && forall i :: 0 <= i < |phone.value| ==> r.value[i] == if MaskedAt(phone.value, i) then '*' else phone.value[i]
  {
    if !Truthy(phone) then phone
    else if |Digits(phone.value)| < 4 then Some(Stars(|Digits(phone.value)|))
    else Some(ReplaceDigitRuns(phone.value))
  }

  /** `maskSSN`. */
  function MaskSsn(ssn: Option<string>): (r: Option<string>)
    ensures !Truthy(ssn) ==> r == ssn
    ensures Truthy(ssn) ==>
      r.Some? && |r.value| == |ssn.value| && forall i :: 0 <= i < |ssn.value| ==> r.value[i] == if MaskedAt(ssn.value, i) then '*' else ssn.value[i]
  {
    if !Truthy(ssn) then ssn else Some(ReplaceDigitRuns(ssn.value))
  }

  /** A number is left as it is exactly when it holds no run of five digits. */
  lemma UnchangedIffNoRun(s: string)
    ensures ReplaceDigitRuns(s) == s <==> forall i :: 0 <= i < |s| ==> !MaskedAt(s, i)
  {
    if exists i :: 0 <= i < |s| && MaskedAt(s, i) {
      var i :| 0 <= i < |s| && MaskedAt(s, i);
      assert IsDigit(s[i]) && ReplaceDigitRuns(s)[i] == '*';
    }
  }

  /** A phone number that ends in four digits and holds no run of five is
      returned unchanged. */
  lemma GroupedPhoneUnchanged(p: string)
    requires |p| >= 4 && forall i :: |p| - 4 <= i < |p| ==> IsDigit(p[i])
    requires forall i :: 0 <= i < |p| ==> !MaskedAt(p, i)
    ensures MaskPhone(Some(p)) == Some(p)
  {
    UnchangedIffNoRun(p);
    LastFourDigits(p);
  }

  /** "555-123-4567" is such a number. */
  lemma GroupedPhoneExample()
    ensures MaskPhone(Some("555-123-4567")) == Some("555-123-4567")
  {
    var p := "555-123-4567";
    assert !IsDigit(p[3]) && !IsDigit(p[7]);
    GroupedPhoneUnchanged(p);
  }

  /** A number ending in four digits has at least four digits. */
  lemma LastFourDigits(p: string)
    requires |p| >= 4 && forall i :: |p| - 4 <= i < |p| ==> IsDigit(p[i])
    ensures |Digits(p)| >= 4
  {
    var k := |p| - 4;
    assert p[..k] + p[k..] == p;
    FilterAppend(p[..k], p[k..], IsDigit);
    FilterAll(p[k..], IsDigit);
  }

  /** "123-45-6789" holds no run of five digits and is returned unchanged. */
  lemma GroupedSsnUnchanged(q: string)
    requires q == "123-45-6789"
    ensures MaskSsn(Some(q)) == Some(q)
  {
    assert !IsDigit(q[3]) && !IsDigit(q[6]);
    UnchangedIffNoRun(q);
  }

  /** An unbroken run of digits keeps only its last four. */
  lemma DigitRunMasked(s: string)
    requires forall i :: 0 <= i < |s| ==> IsDigit(s[i])
    ensures forall i :: 0 <= i < |s| ==> ReplaceDigitRuns(s)[i] == if i + 4 < |s| then '*' else s[i]
  {
    forall i | 0 <= i < |s| && i + 4 < |s| ensures MaskedAt(s, i) {
    }
  }

  /** The first character of a name part, then one star per remaining one. */
  function MaskPart(part: Option<string>): (r: Option<string>)
    ensures Truthy(part) ==>
      r.Some? && |r.value| == |part.value| && r.value[0] == part.value[0] && forall i :: 1 <= i < |r.value| ==> r.value[i] == '*'
    ensures !Truthy(part) ==> r.None?
  {
    if Truthy(part) then Some([part.value[0]] + Stars(|part.value| - 1)) else None
  }

  /** `maskName`: first and last names are masked; the middle name is kept. */
  function MaskName(name: Option<Name>): (r: Option<Name>)
    ensures r.Some? <==> name.Some?
    ensures name.Some? ==>
      r.value.middle == name.value.middle && r.value.first == MaskPart(name.value.first) && r.value.last == MaskPart(name.value.last)
  {
    if name.None? then None
    else Some(name.value.(first := MaskPart(name.value.first), last := MaskPart(name.value.last)))
  }

  /** `maskAddress`: the first line is cut to its first character and "***". */
  function MaskAddress(addr: Option<Address>): (r: Option<Address>)
    ensures r.Some? <==> addr.Some?
    ensures addr.Some? ==>
      r.value.line2 == addr.value.line2 && r.value.city == addr.value.city && r.value.state == addr.value.state && r.value.zip == addr.value.zip
    ensures addr.Some? && Truthy(addr.value.line1) ==> r.value.line1 == Some([addr.value.line1.value[0]] + "***")
    ensures addr.Some? && !Truthy(addr.value.line1) ==> r.value.line1.None?
  {
    if addr.None? then None
    else
      var line1 := if Truthy(addr.value.line1) then Some([addr.value.line1.value[0]] + "***") else None;
      Some(addr.value.(line1 := line1))
  }

  function MaskPerson(person: Person): Person
  {
    person.(email := MaskEmail(person.email), phone := MaskPhone(person.phone), ssn := MaskSsn(person.ssn),
            name := MaskName(person.name), address := MaskAddress(person.address))
  }

  datatype Masked = Masked(claim: Claim, person: Option<Person>)

  /** `maskClaim`: the claim is copied unchanged and the person, if any, masked. */
  function MaskClaim(claim: Claim, person: Option<Person>): (m: Masked)
    ensures m.claim == claim
    ensures m.person.Some? <==> person.Some?
    ensures person.Some? ==>
      m.person.value.id == person.value.id
      && m.person.value.email == MaskEmail(person.value.email)
      && m.person.value.phone == MaskPhone(person.value.phone)
      && m.person.value.ssn == MaskSsn(person.value.ssn)
      && m.person.value.name == MaskName(person.value.name)
      && m.person.value.address == MaskAddress(person.value.address)
  {
    Masked(claim, if person.Some? then Some(MaskPerson(person.value)) else None)
  }
}
