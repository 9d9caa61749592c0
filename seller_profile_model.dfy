/**
 * The monolith's seller profile document: the GSTIN-shaped pattern its
 * `gstNumber` must match, the `gstVerified` default, the paths `save`
 * requires, and the unique index on `userId`. Logo, certificate and PAN
 * uploads are left out.
 */
module SellerProfileModel {
  import opened Common
  import opened Text
  import opened Patterns

  /** `/^\d{2}[A-Z]{5}\d{4}[A-Z]{1}[A-Z\d]{1}Z[A-Z\d]{1}$/`. */
  const GstPattern: seq<CharClass> :=
    Repeat(Digit, 2) + Repeat(Upper, 5) + Repeat(Digit, 4) + [Upper, UpperOrDigit, Exactly('Z'), UpperOrDigit]

  predicate IsGstNumber(v: string) {
    Matches(GstPattern, v)
  }

  /** The class the pattern puts at each of its fifteen positions. */
  function GstClass(i: nat): (k: CharClass)
    requires i < 15
  {
    if i < 2 then Digit
    else if i < 7 then Upper
    else if i < 11 then Digit
    else if i == 11 then Upper
    else if i == 13 then Exactly('Z')
    else UpperOrDigit
  }

  lemma GstPatternPositions()
    ensures |GstPattern| == 15
    ensures forall i :: 0 <= i < 15 ==> GstPattern[i] == GstClass(i)
  {
    var a, b, c := Repeat(Digit, 2), Repeat(Upper, 5), Repeat(Digit, 4);
    assert GstPattern == a + b + c + [Upper, UpperOrDigit, Exactly('Z'), UpperOrDigit];
    forall i | 0 <= i < 15
      ensures GstPattern[i] == GstClass(i)
    {
      if i < 2 {
        assert GstPattern[i] == a[i];
      } else if i < 7 {
        assert GstPattern[i] == b[i - 2];
      } else if i < 11 {
        assert GstPattern[i] == c[i - 7];
      }
    }
  }

  /**
   * The pattern accepts exactly the fifteen-character strings with two
   * digits, five capital letters, four digits, a capital letter, a capital
   * letter or digit, the letter Z, and a capital letter or digit.
   */
  lemma {:induction false} GstNumberShape(v: string)
    ensures IsGstNumber(v) <==> |v| == 15 && forall i :: 0 <= i < 15 ==> InClass(v[i], GstClass(i))
  {
    GstPatternPositions();
    if IsGstNumber(v) {
      MatchesExactly(GstPattern, v);
    }
    if |v| == 15 && forall i :: 0 <= i < 15 ==> InClass(v[i], GstClass(i)) {
      MatchesWhenInClass(GstPattern, v);
    }
  }

  /** Every accepted number is fifteen characters long with 'Z' at index 13. */
  lemma AcceptedGstNumber(v: string)
    requires IsGstNumber(v)
    ensures |v| == 15 && v[13] == 'Z'
    ensures forall i :: 0 <= i < 2 ==> IsDigit(v[i])
  {
    GstNumberShape(v);
    assert InClass(v[13], GstClass(13));
    assert forall i :: 0 <= i < 2 ==> InClass(v[i], GstClass(i));
  }

  /** No position of the pattern admits a lower-case letter. */
  lemma LowercaseRejected(v: string, i: nat)
    requires i < |v| && IsAsciiLower(v[i])
    ensures !IsGstNumber(v)
  {
    GstNumberShape(v);
    if |v| == 15 {
      assert !InClass(v[i], GstClass(i));
    }
  }

  /** A stored seller profile; `userId` references the user it belongs to. */
  datatype SellerProfile = SellerProfile(
    userId: Id,
    companyName: string,
    fullAddress: string,
    pincode: string,
    city: string,
    state: string,
    gstNumber: string,
    gstVerified: bool,
    businessType: string,
    yearOfEstablishment: int,
    bankAccountName: string,
    bankAccountNumber: string,
    ifscCode: string)

  /** The fields given to `new SellerProfile(...)`. */
  datatype ProfileInput = ProfileInput(
    userId: Option<Id>,
    companyName: Option<string>,
    fullAddress: Option<string>,
    pincode: Option<string>,
    city: Option<string>,
    state: Option<string>,
    gstNumber: Option<string>,
    gstVerified: Option<bool>,
    businessType: Option<string>,
    yearOfEstablishment: Option<int>,
    bankAccountName: Option<string>,
    bankAccountNumber: Option<string>,
    ifscCode: Option<string>)

  /**
   * The inputs `save` accepts: every required path present, `companyName`
   * and `fullAddress` not blank once trimmed, and a GST number the pattern
   * accepts.
   */
  predicate AcceptedProfile(input: ProfileInput) {
    && input.userId.Some?
    && input.companyName.Some? && !AllSpace(input.companyName.value)
    && input.fullAddress.Some? && !AllSpace(input.fullAddress.value)
    && Truthy(input.pincode) && Truthy(input.city) && Truthy(input.state)
    && input.gstNumber.Some? && IsGstNumber(input.gstNumber.value)
    && Truthy(input.businessType) && input.yearOfEstablishment.Some?
    && Truthy(input.bankAccountName) && Truthy(input.bankAccountNumber) && Truthy(input.ifscCode)
  }

  /**
   * Building and saving a profile: the stored document, or None for a
   * validation error. `companyName` and `fullAddress` are trimmed first, so
   * whitespace alone fails `required`; `gstVerified` defaults to false.
   */
  function CreateProfile(input: ProfileInput): (r: Option<SellerProfile>)
    ensures r.Some? <==> AcceptedProfile(input)
    ensures r.Some? ==>
      && IsGstNumber(r.value.gstNumber) && |r.value.gstNumber| == 15
      && r.value.companyName == Trim(input.companyName.value) && r.value.companyName != []
      && (r.value.gstVerified <==> input.gstVerified == Some(true))
  {
    if AcceptedProfile(input) then
      var gst := input.gstNumber.value;
      AcceptedGstNumber(gst);
      var companyName := Trim(input.companyName.value);
      // `gstVerified: { default: false }`
      Some(SellerProfile(
        input.userId.value, companyName, Trim(input.fullAddress.value),
        input.pincode.value, input.city.value, input.state.value, gst,
        input.gstVerified == Some(true), input.businessType.value, input.yearOfEstablishment.value,
        input.bankAccountName.value, input.bankAccountNumber.value, input.ifscCode.value))
    else None
  }

  /**
   * The schema's validators as `save` runs them on a loaded profile: every
   * loaded path is validated again, so each required string must be
   * non-empty as stored and the GST number must match the pattern.
   */
  predicate SavedProfileValid(p: SellerProfile) {
    && p.userId != "" && p.companyName != "" && p.fullAddress != ""
    && p.pincode != "" && p.city != "" && p.state != ""
    && IsGstNumber(p.gstNumber) && p.businessType != ""
    && p.bankAccountName != "" && p.bankAccountNumber != "" && p.ifscCode != ""
  }

  /** A profile that creation stored passes the validators again when it is saved later. */
  lemma CreatedProfileRevalidates(input: ProfileInput)
    requires CreateProfile(input).Some? && input.userId != Some("")
    ensures SavedProfileValid(CreateProfile(input).value)
  {
    TrimEmptyWhenAllSpace(input.fullAddress.value);
  }

  /** The unique index on `userId`: no two profiles belong to the same user. */
  predicate OnePerUser(profiles: map<Id, SellerProfile>) {
    forall a, b :: a in profiles && b in profiles && profiles[a].userId == profiles[b].userId ==> a == b
  }

  /**
   * Inserting a profile under a fresh `_id`: None when the unique index
   * rejects it (the user already has a profile, or the `_id` is taken).
   */
  function Insert(profiles: map<Id, SellerProfile>, id: Id, p: SellerProfile): (r: Option<map<Id, SellerProfile>>)
    requires OnePerUser(profiles)
    ensures r.None? <==> id in profiles || exists k :: k in profiles && profiles[k].userId == p.userId
    ensures r.Some? ==> OnePerUser(r.value) && r.value == profiles[id := p]
    ensures r.Some? ==> forall k :: k in r.value && r.value[k].userId == p.userId <==> k == id
  {
    if id in profiles || exists k :: k in profiles && profiles[k].userId == p.userId then None
    else Some(profiles[id := p])
  }
}
