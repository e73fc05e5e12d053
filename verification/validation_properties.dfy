/** What the validator promises as a whole: failures appear in declaration
    order, each property's failures are exactly its own rule's, an absent
    section is silent, and the empty result means the request is acceptable. */
module ValidationProperties {
  import opened Wrappers
  import opened Text
  import opened Dates
  import opened Contracts
  import opened Validation

  /** The failures among `vs` that concern `f`, in their order. */
  function For(vs: seq<Violation>, f: Field): (ws: seq<Violation>)
    ensures |ws| <= |vs|
    ensures forall w :: w in ws <==> w in vs && w.field == f
  {
    if |vs| == 0 then []
    else (if vs[0].field == f then [vs[0]] else []) + For(vs[1..], f)
  }

  /** The error codes of `vs`, in order. */
  function Codes(vs: seq<Violation>): (cs: seq<Code>)
    ensures |cs| == |vs|
  {
    if |vs| == 0 then [] else [vs[0].code] + Codes(vs[1..])
  }

  /** `[code]` when `failed`, nothing otherwise. */
  function Flag(failed: bool, code: Code): seq<Code> {
    if failed then [code] else []
  }

  /** A non-null value longer than `n`. */
  predicate TooLong(v: Option<string>, n: nat) {
    v.Some? && |v.value| > n
  }

  /** Rules listed by strictly increasing declaration rank. */
  predicate Ascending(fields: seq<Field>) {
    forall i, j :: 0 <= i < j < |fields| ==> Rank(fields[i]) < Rank(fields[j])
  }

  /** Failures never go back to an earlier rule. */
  predicate InRuleOrder(vs: seq<Violation>) {
    forall i, j :: 0 <= i < j < |vs| ==> Rank(vs[i].field) <= Rank(vs[j].field)
  }

  lemma RankIsPosition(i: int)
    requires 0 <= i < |DeclarationOrder|
    ensures Rank(DeclarationOrder[i]) == i
  {
    assert i == 0 || i == 1 || i == 2 || i == 3 || i == 4 || i == 5 || i == 6 || i == 7
        || i == 8 || i == 9 || i == 10 || i == 11 || i == 12 || i == 13 || i == 14
        || i == 15 || i == 16 || i == 17 || i == 18 || i == 19 || i == 20 || i == 21 || i == 22;
  }

  lemma DeclarationOrderAscending()
    ensures Ascending(DeclarationOrder)
  {
    forall i, j | 0 <= i < j < |DeclarationOrder|
      ensures Rank(DeclarationOrder[i]) < Rank(DeclarationOrder[j])
    {
      RankIsPosition(i);
      RankIsPosition(j);
    }
  }

  lemma EveryFieldDeclared(f: Field)
    ensures f in DeclarationOrder
  {
  }

  lemma {:induction false} ForConcat(a: seq<Violation>, b: seq<Violation>, f: Field)
    ensures For(a + b, f) == For(a, f) + For(b, f)
  {
    if |a| == 0 {
      assert a + b == b;
    } else {
      assert (a + b)[1..] == a[1..] + b;
      ForConcat(a[1..], b, f);
    }
  }

  lemma {:induction false} ForUniform(vs: seq<Violation>, g: Field, f: Field)
    requires forall v :: v in vs ==> v.field == g
    ensures For(vs, f) == if g == f then vs else []
  {
    if |vs| > 0 {
      assert vs[0] in vs;
      ForUniform(vs[1..], g, f);
      if g == f {
        assert [vs[0]] + vs[1..] == vs;
      }
    }
  }

  lemma {:induction false} CollectFor(r: PreOnboardingRequest, ctx: Context, fields: seq<Field>, f: Field)
    requires Ascending(fields)
    ensures For(Collect(r, ctx, fields), f) == if f in fields then Rule(r, ctx, f) else []
  {
    if |fields| > 0 {
      var g := fields[0];
      var rest := fields[1..];
      assert Ascending(rest);
      ForConcat(Rule(r, ctx, g), Collect(r, ctx, rest), f);
      ForUniform(Rule(r, ctx, g), g, f);
      CollectFor(r, ctx, rest, f);
      if f == g {
        forall k | 0 <= k < |rest|
          ensures rest[k] != f
        {
          assert fields[k + 1] == rest[k];
        }
      } else {
        assert f in fields <==> f in rest by {
          assert fields == [g] + rest;
        }
      }
    }
  }

  /** The failures the validator reports for a property are exactly those
      of the rule declared for it, in the rule's own order. */
  lemma ValidateFor(r: PreOnboardingRequest, ctx: Context, f: Field)
    ensures For(Validate(r, ctx), f) == Rule(r, ctx, f)
  {
    DeclarationOrderAscending();
    EveryFieldDeclared(f);
    CollectFor(r, ctx, DeclarationOrder, f);
  }

  lemma {:induction false} CollectInRuleOrder(r: PreOnboardingRequest, ctx: Context, fields: seq<Field>)
    requires Ascending(fields)
    ensures InRuleOrder(Collect(r, ctx, fields))
  {
    if |fields| > 0 {
      var g := fields[0];
      var rest := fields[1..];
      assert Ascending(rest);
      CollectInRuleOrder(r, ctx, rest);
      var head := Rule(r, ctx, g);
      var tail := Collect(r, ctx, rest);
      forall v | v in tail
        ensures Rank(g) < Rank(v.field)
      {
        var k :| 0 <= k < |rest| && rest[k] == v.field;
        assert fields[k + 1] == v.field;
      }
      var all := head + tail;
      forall i, j | 0 <= i < j < |all|
        ensures Rank(all[i].field) <= Rank(all[j].field)
      {
        if j < |head| {
          assert all[i] in head && all[j] in head;
        } else if i < |head| {
          assert all[i] in head && all[j] == tail[j - |head|];
          assert all[j] in tail;
        } else {
          assert all[i] == tail[i - |head|] && all[j] == tail[j - |head|];
        }
      }
    }
  }

  /** Failures come out rule by rule, in the order the rules are declared. */
  lemma ValidateInDeclarationOrder(r: PreOnboardingRequest, ctx: Context)
    ensures InRuleOrder(Validate(r, ctx))
  {
    DeclarationOrderAscending();
    CollectInRuleOrder(r, ctx, DeclarationOrder);
  }

  // ---------------------------------------------------------------------------
  // Field by field: the codes reported for each property

  lemma IdentifierTable(r: PreOnboardingRequest, ctx: Context)
    ensures Codes(Rule(r, ctx, ExternalCandidateId))
      == Flag(IsBlank(r.externalCandidateId), Required) + Flag(TooLong(r.externalCandidateId, 50), MaxLength)
    ensures Codes(Rule(r, ctx, CrisilOfferId))
      == Flag(IsBlank(r.crisilOfferId), Required) + Flag(TooLong(r.crisilOfferId, 50), MaxLength)
  {
  }

  lemma NameTable(r: PreOnboardingRequest, ctx: Context)
    ensures Codes(Rule(r, ctx, FirstName))
      == Flag(IsBlank(r.firstName), Required) + Flag(TooLong(r.firstName, 100), MaxLength)
    ensures Codes(Rule(r, ctx, LastName))
      == Flag(IsBlank(r.lastName), Required) + Flag(TooLong(r.lastName, 100), MaxLength)
  {
  }

  /** The identifiers and names are each checked for presence and for length,
      independently: blank gives REQUIRED, a non-null value over the bound gives
      MAX_LENGTH, and a long blank value gives both, in that order. */
  lemma MandatoryTextRules(r: PreOnboardingRequest, ctx: Context)
    ensures Codes(For(Validate(r, ctx), ExternalCandidateId))
      == Flag(IsBlank(r.externalCandidateId), Required) + Flag(TooLong(r.externalCandidateId, 50), MaxLength)
    ensures Codes(For(Validate(r, ctx), CrisilOfferId))
      == Flag(IsBlank(r.crisilOfferId), Required) + Flag(TooLong(r.crisilOfferId, 50), MaxLength)
    ensures Codes(For(Validate(r, ctx), FirstName))
      == Flag(IsBlank(r.firstName), Required) + Flag(TooLong(r.firstName, 100), MaxLength)
    ensures Codes(For(Validate(r, ctx), LastName))
      == Flag(IsBlank(r.lastName), Required) + Flag(TooLong(r.lastName, 100), MaxLength)
  {
    ValidateFor(r, ctx, ExternalCandidateId);
    ValidateFor(r, ctx, CrisilOfferId);
    ValidateFor(r, ctx, FirstName);
    ValidateFor(r, ctx, LastName);
    IdentifierTable(r, ctx);
    NameTable(r, ctx);
  }

  lemma MandatoryDateTable(r: PreOnboardingRequest, ctx: Context)
    ensures Codes(Rule(r, ctx, JoiningDate))
      == Flag(r.joiningDate.None?, Required)
    ensures Codes(Rule(r, ctx, DateOfBirth))
      == Flag(r.dateOfBirth.None?, Required)
       + Flag(r.dateOfBirth.Some? && !Before(r.dateOfBirth.value, ctx.today), InvalidDate)
  {
  }

  /** A missing date gives REQUIRED only; a present date of birth that is not
      strictly before today gives INVALID_DATE. */
  lemma MandatoryDateRules(r: PreOnboardingRequest, ctx: Context)
    ensures Codes(For(Validate(r, ctx), JoiningDate))
      == Flag(r.joiningDate.None?, Required)
    ensures Codes(For(Validate(r, ctx), DateOfBirth))
      == Flag(r.dateOfBirth.None?, Required)
       + Flag(r.dateOfBirth.Some? && !Before(r.dateOfBirth.value, ctx.today), InvalidDate)
  {
    ValidateFor(r, ctx, JoiningDate);
    ValidateFor(r, ctx, DateOfBirth);
    MandatoryDateTable(r, ctx);
  }

  lemma ContactTable(r: PreOnboardingRequest, ctx: Context)
    ensures Codes(Rule(r, ctx, PersonalEmail))
      == Flag(IsBlank(r.personalEmail), Required)
       + Flag(r.personalEmail.Some? && !ctx.isEmail(r.personalEmail.value), InvalidEmail)
    ensures Codes(Rule(r, ctx, MobileNumber))
      == Flag(IsBlank(r.mobileNumber), Required)
       + Flag(r.mobileNumber.Some? && !IsPhoneNumber(r.mobileNumber.value), InvalidMobile)
  {
  }

  /** The e-mail and mobile number are required; a non-null value is also
      checked for its format, so a blank non-null value fails both checks. */
  lemma ContactRules(r: PreOnboardingRequest, ctx: Context)
    ensures Codes(For(Validate(r, ctx), PersonalEmail))
      == Flag(IsBlank(r.personalEmail), Required)
       + Flag(r.personalEmail.Some? && !ctx.isEmail(r.personalEmail.value), InvalidEmail)
    ensures Codes(For(Validate(r, ctx), MobileNumber))
      == Flag(IsBlank(r.mobileNumber), Required)
       + Flag(r.mobileNumber.Some? && !IsPhoneNumber(r.mobileNumber.value), InvalidMobile)
  {
    ValidateFor(r, ctx, PersonalEmail);
    ValidateFor(r, ctx, MobileNumber);
    ContactTable(r, ctx);
  }

  lemma JoiningStatusCodes(r: PreOnboardingRequest, ctx: Context)
    ensures Codes(Rule(r, ctx, JoiningStatus))
      == Flag(!OptionalMember(r.joiningStatus, AllowedJoiningStatus), InvalidEnum)
  {
  }

  lemma GenderCodes(r: PreOnboardingRequest, ctx: Context)
    ensures Codes(Rule(r, ctx, Gender))
      == Flag(!OptionalMember(r.gender, AllowedGender), InvalidEnum)
  {
  }

  lemma JobWorkLocationTypeCodes(r: PreOnboardingRequest, ctx: Context)
    ensures Codes(Rule(r, ctx, JobWorkLocationType))
      == Flag(r.job.Some? && !OptionalMember(r.job.value.workLocationType, AllowedWorkLocationType), InvalidEnum)
  {
  }

  lemma JobEmployeeTypeCodes(r: PreOnboardingRequest, ctx: Context)
    ensures Codes(Rule(r, ctx, JobEmployeeType))
      == Flag(r.job.Some? && !OptionalMember(r.job.value.employeeType, AllowedEmployeeType), InvalidEnum)
  {
  }

  lemma PayPayrollCycleCodes(r: PreOnboardingRequest, ctx: Context)
    ensures Codes(Rule(r, ctx, PayPayrollCycle))
      == Flag(r.pay.Some? && !OptionalMember(r.pay.value.payrollCycle, AllowedPayrollCycle), InvalidEnum)
  {
  }

  /** Enumerated fields: blank always passes, otherwise the value must be a
      case-insensitive member of its fixed set. Section fields are only checked
      when their section is present. */
  lemma EnumRules(r: PreOnboardingRequest, ctx: Context)
    ensures Codes(For(Validate(r, ctx), JoiningStatus))
      == Flag(!OptionalMember(r.joiningStatus, AllowedJoiningStatus), InvalidEnum)
    ensures Codes(For(Validate(r, ctx), Gender))
      == Flag(!OptionalMember(r.gender, AllowedGender), InvalidEnum)
    ensures Codes(For(Validate(r, ctx), JobWorkLocationType))
      == Flag(r.job.Some? && !OptionalMember(r.job.value.workLocationType, AllowedWorkLocationType), InvalidEnum)
    ensures Codes(For(Validate(r, ctx), JobEmployeeType))
      == Flag(r.job.Some? && !OptionalMember(r.job.value.employeeType, AllowedEmployeeType), InvalidEnum)
    ensures Codes(For(Validate(r, ctx), PayPayrollCycle))
      == Flag(r.pay.Some? && !OptionalMember(r.pay.value.payrollCycle, AllowedPayrollCycle), InvalidEnum)
  {
    ValidateFor(r, ctx, JoiningStatus);
    ValidateFor(r, ctx, Gender);
    ValidateFor(r, ctx, JobWorkLocationType);
    ValidateFor(r, ctx, JobEmployeeType);
    ValidateFor(r, ctx, PayPayrollCycle);
    JoiningStatusCodes(r, ctx);
    GenderCodes(r, ctx);
    JobWorkLocationTypeCodes(r, ctx);
    JobEmployeeTypeCodes(r, ctx);
    PayPayrollCycleCodes(r, ctx);
  }

  lemma OptionalFormatTable(r: PreOnboardingRequest, ctx: Context)
    ensures Codes(Rule(r, ctx, Nationality))
      == Flag(!IsBlank(r.nationality) && |r.nationality.value| > 50, MaxLength)
    ensures Codes(Rule(r, ctx, MobileCountryCode))
      == Flag(!IsBlank(r.mobileCountryCode) && !IsCountryCode(r.mobileCountryCode.value), InvalidCountryCode)
  {
  }

  /** Optional top-level formats apply only to non-blank values. */
  lemma OptionalFormatRules(r: PreOnboardingRequest, ctx: Context)
    ensures Codes(For(Validate(r, ctx), Nationality))
      == Flag(!IsBlank(r.nationality) && |r.nationality.value| > 50, MaxLength)
    ensures Codes(For(Validate(r, ctx), MobileCountryCode))
      == Flag(!IsBlank(r.mobileCountryCode) && !IsCountryCode(r.mobileCountryCode.value), InvalidCountryCode)
  {
    ValidateFor(r, ctx, Nationality);
    ValidateFor(r, ctx, MobileCountryCode);
    OptionalFormatTable(r, ctx);
  }

  lemma AddressLine1Codes(r: PreOnboardingRequest, ctx: Context)
    ensures Codes(Rule(r, ctx, AddressLine1))
      == Flag(r.address.Some? && IsBlank(r.address.value.line1), Required)
       + Flag(r.address.Some? && TooLong(r.address.value.line1, 200), MaxLength)
  {
  }

  lemma AddressCityCodes(r: PreOnboardingRequest, ctx: Context)
    ensures Codes(Rule(r, ctx, AddressCity))
      == Flag(r.address.Some? && IsBlank(r.address.value.city), Required)
       + Flag(r.address.Some? && TooLong(r.address.value.city, 80), MaxLength)
  {
  }

  lemma AddressPostalCodeCodes(r: PreOnboardingRequest, ctx: Context)
    ensures Codes(Rule(r, ctx, AddressPostalCode))
      == Flag(r.address.Some? && !IsBlank(r.address.value.postalCode)
              && !IsPostalCode(r.address.value.postalCode.value), InvalidPostal)
  {
  }

  /** An absent address is silent; a present one needs a line1 of at most 200
      characters and a city of at most 80, and its postal code, when not blank,
      must be 4 to 10 digits. */
  lemma AddressRules(r: PreOnboardingRequest, ctx: Context)
    ensures Codes(For(Validate(r, ctx), AddressLine1))
      == Flag(r.address.Some? && IsBlank(r.address.value.line1), Required)
       + Flag(r.address.Some? && TooLong(r.address.value.line1, 200), MaxLength)
    ensures Codes(For(Validate(r, ctx), AddressCity))
      == Flag(r.address.Some? && IsBlank(r.address.value.city), Required)
       + Flag(r.address.Some? && TooLong(r.address.value.city, 80), MaxLength)
    ensures Codes(For(Validate(r, ctx), AddressPostalCode))
      == Flag(r.address.Some? && !IsBlank(r.address.value.postalCode)
              && !IsPostalCode(r.address.value.postalCode.value), InvalidPostal)
  {
    ValidateFor(r, ctx, AddressLine1);
    ValidateFor(r, ctx, AddressCity);
    ValidateFor(r, ctx, AddressPostalCode);
    AddressLine1Codes(r, ctx);
    AddressCityCodes(r, ctx);
    AddressPostalCodeCodes(r, ctx);
  }

  lemma KycPanCodes(r: PreOnboardingRequest, ctx: Context)
    ensures Codes(Rule(r, ctx, KycPan))
      == Flag(r.kyc.Some? && !IsBlank(r.kyc.value.pan) && !IsPan(r.kyc.value.pan.value), InvalidPan)
  {
  }

  lemma KycAadhaarLast4Codes(r: PreOnboardingRequest, ctx: Context)
    ensures Codes(Rule(r, ctx, KycAadhaarLast4))
      == Flag(r.kyc.Some? && !IsBlank(r.kyc.value.aadhaarLast4)
              && !IsTwelveDigits(r.kyc.value.aadhaarLast4.value), InvalidAadhaarLast4)
  {
  }

  lemma PayCtcAnnualInInrCodes(r: PreOnboardingRequest, ctx: Context)
    ensures Codes(Rule(r, ctx, PayCtcAnnualInInr))
      == Flag(r.pay.Some? && r.pay.value.ctcAnnualInInr.Some?
              && r.pay.value.ctcAnnualInInr.value <= 0.0, InvalidRange)
  {
  }

  lemma JobManagerEmailCodes(r: PreOnboardingRequest, ctx: Context)
    ensures Codes(Rule(r, ctx, JobManagerEmail))
      == Flag(r.job.Some? && !IsBlank(r.job.value.managerEmail)
              && !ctx.isEmail(r.job.value.managerEmail.value), InvalidEmail)
  {
  }

  lemma EmergencyContactPhoneCodes(r: PreOnboardingRequest, ctx: Context)
    ensures Codes(Rule(r, ctx, EmergencyContactPhone))
      == Flag(r.emergencyContact.Some? && !IsBlank(r.emergencyContact.value.phone)
              && !IsPhoneNumber(r.emergencyContact.value.phone.value), InvalidMobile)
  {
  }

  /** The format rules of the other sections, each only for a present section
      and a non-blank (for the CTC: non-null) value. */
  lemma SectionFormatRules(r: PreOnboardingRequest, ctx: Context)
    ensures Codes(For(Validate(r, ctx), KycPan))
      == Flag(r.kyc.Some? && !IsBlank(r.kyc.value.pan) && !IsPan(r.kyc.value.pan.value), InvalidPan)
    ensures Codes(For(Validate(r, ctx), KycAadhaarLast4))
      == Flag(r.kyc.Some? && !IsBlank(r.kyc.value.aadhaarLast4)
              && !IsTwelveDigits(r.kyc.value.aadhaarLast4.value), InvalidAadhaarLast4)
    ensures Codes(For(Validate(r, ctx), PayCtcAnnualInInr))
      == Flag(r.pay.Some? && r.pay.value.ctcAnnualInInr.Some?
              && r.pay.value.ctcAnnualInInr.value <= 0.0, InvalidRange)
    ensures Codes(For(Validate(r, ctx), JobManagerEmail))
      == Flag(r.job.Some? && !IsBlank(r.job.value.managerEmail)
              && !ctx.isEmail(r.job.value.managerEmail.value), InvalidEmail)
    ensures Codes(For(Validate(r, ctx), EmergencyContactPhone))
      == Flag(r.emergencyContact.Some? && !IsBlank(r.emergencyContact.value.phone)
              && !IsPhoneNumber(r.emergencyContact.value.phone.value), InvalidMobile)
  {
    ValidateFor(r, ctx, KycPan);
    ValidateFor(r, ctx, KycAadhaarLast4);
    ValidateFor(r, ctx, PayCtcAnnualInInr);
    ValidateFor(r, ctx, JobManagerEmail);
    ValidateFor(r, ctx, EmergencyContactPhone);
    KycPanCodes(r, ctx);
    KycAadhaarLast4Codes(r, ctx);
    PayCtcAnnualInInrCodes(r, ctx);
    JobManagerEmailCodes(r, ctx);
    EmergencyContactPhoneCodes(r, ctx);
  }

  // ---------------------------------------------------------------------------
  // Sections

  /** The request with section `s` left out (top-level fields cannot be). */
  function WithoutSection(r: PreOnboardingRequest, s: Section): PreOnboardingRequest {
    match s
    case TopLevel => r
    case Address => r.(address := None)
    case Job => r.(job := None)
    case Pay => r.(pay := None)
    case Kyc => r.(kyc := None)
    case EmergencyContact => r.(emergencyContact := None)
  }

  /** Only a present section can contribute failures. */
  lemma AbsentSectionIsSilent(r: PreOnboardingRequest, ctx: Context)
    ensures forall v :: v in Validate(r, ctx) ==> SectionPresent(r, SectionOf(v.field))
  {
  }

  /** Two requests with the same top-level fields. */
  predicate SameTopLevel(r: PreOnboardingRequest, q: PreOnboardingRequest) {
    && r.externalCandidateId == q.externalCandidateId && r.crisilOfferId == q.crisilOfferId
    && r.joiningStatus == q.joiningStatus && r.joiningDate == q.joiningDate
    && r.firstName == q.firstName && r.lastName == q.lastName
    && r.dateOfBirth == q.dateOfBirth && r.gender == q.gender && r.nationality == q.nationality
    && r.personalEmail == q.personalEmail && r.mobileCountryCode == q.mobileCountryCode
    && r.mobileNumber == q.mobileNumber
  }

  lemma TopLevelRuleAgrees(r: PreOnboardingRequest, q: PreOnboardingRequest, ctx: Context, f: Field)
    requires SameTopLevel(r, q)
    requires SectionOf(f) == TopLevel
    ensures TopLevelRule(r, ctx, f) == TopLevelRule(q, ctx, f)
  {
    match f
    case ExternalCandidateId =>
    case CrisilOfferId =>
    case JoiningDate =>
    case FirstName =>
    case LastName =>
    case DateOfBirth =>
    case PersonalEmail =>
    case MobileNumber =>
    case JoiningStatus =>
    case Gender =>
    case Nationality =>
    case MobileCountryCode =>
  }

  lemma RuleIgnoresOtherSections(r: PreOnboardingRequest, ctx: Context, s: Section, f: Field)
    requires s != TopLevel
    ensures Rule(WithoutSection(r, s), ctx, f) == if SectionOf(f) == s then [] else Rule(r, ctx, f)
  {
    if SectionOf(f) == TopLevel {
      TopLevelRuleAgrees(WithoutSection(r, s), r, ctx, f);
    }
  }

  /** Leaving a section out removes exactly that section's failures and leaves
      every other property's failures as they were. */
  lemma DroppingSectionDropsOnlyItsFailures(r: PreOnboardingRequest, ctx: Context, s: Section, f: Field)
    requires s != TopLevel
    ensures For(Validate(WithoutSection(r, s), ctx), f)
         == if SectionOf(f) == s then [] else For(Validate(r, ctx), f)
  {
    ValidateFor(WithoutSection(r, s), ctx, f);
    ValidateFor(r, ctx, f);
    RuleIgnoresOtherSections(r, ctx, s, f);
  }

  // ---------------------------------------------------------------------------
  // Acceptance, stated declaratively

  /** Present, not blank, and at most `n` characters. */
  predicate Filled(v: Option<string>, n: nat) {
    !IsBlank(v) && |v.value| <= n
  }

  /** Blank, or passing `ok`. */
  predicate BlankOr(v: Option<string>, ok: string -> bool) {
    IsBlank(v) || ok(v.value)
  }

  predicate TopLevelAcceptable(r: PreOnboardingRequest, ctx: Context) {
    && Filled(r.externalCandidateId, 50)
    && Filled(r.crisilOfferId, 50)
    && r.joiningDate.Some?
    && Filled(r.firstName, 100)
    && Filled(r.lastName, 100)
    && r.dateOfBirth.Some? && Before(r.dateOfBirth.value, ctx.today)
    && !IsBlank(r.personalEmail) && ctx.isEmail(r.personalEmail.value)
    && !IsBlank(r.mobileNumber) && IsPhoneNumber(r.mobileNumber.value)
    && OptionalMember(r.joiningStatus, AllowedJoiningStatus)
    && OptionalMember(r.gender, AllowedGender)
    && BlankOr(r.nationality, s => |s| <= 50)
    && BlankOr(r.mobileCountryCode, IsCountryCode)
  }

  predicate AddressAcceptable(a: AddressDto) {
    Filled(a.line1, 200) && Filled(a.city, 80) && BlankOr(a.postalCode, IsPostalCode)
  }

  predicate JobAcceptable(j: JobDto, ctx: Context) {
    && BlankOr(j.managerEmail, ctx.isEmail)
    && OptionalMember(j.workLocationType, AllowedWorkLocationType)
    && OptionalMember(j.employeeType, AllowedEmployeeType)
  }

  predicate PayAcceptable(p: PayDto) {
    (p.ctcAnnualInInr.None? || p.ctcAnnualInInr.value > 0.0)
    && OptionalMember(p.payrollCycle, AllowedPayrollCycle)
  }

  predicate KycAcceptable(k: KycDto) {
    BlankOr(k.pan, IsPan) && BlankOr(k.aadhaarLast4, IsTwelveDigits)
  }

  predicate EmergencyContactAcceptable(e: EmergencyContactDto) {
    BlankOr(e.phone, IsPhoneNumber)
  }

  /** What a request the validator accepts looks like: the mandatory fields
      are present and short enough, the date of birth lies before today, and
      every supplied optional value has its format; an absent section imposes
      nothing. */
  predicate Acceptable(r: PreOnboardingRequest, ctx: Context) {
    && TopLevelAcceptable(r, ctx)
    && (r.address.None? || AddressAcceptable(r.address.value))
    && (r.job.None? || JobAcceptable(r.job.value, ctx))
    && (r.pay.None? || PayAcceptable(r.pay.value))
    && (r.kyc.None? || KycAcceptable(r.kyc.value))
    && (r.emergencyContact.None? || EmergencyContactAcceptable(r.emergencyContact.value))
  }

  /** The rules for `fields` are all silent exactly when each one is. */
  lemma {:induction false} CollectEmpty(r: PreOnboardingRequest, ctx: Context, fields: seq<Field>)
    ensures Collect(r, ctx, fields) == [] <==> forall f :: f in fields ==> Rule(r, ctx, f) == []
  {
    if |fields| > 0 {
      CollectEmpty(r, ctx, fields[1..]);
      assert forall f :: f in fields <==> f == fields[0] || f in fields[1..];
    }
  }

  lemma ValidateEmpty(r: PreOnboardingRequest, ctx: Context)
    ensures Validate(r, ctx) == [] <==> forall f :: Rule(r, ctx, f) == []
  {
    CollectEmpty(r, ctx, DeclarationOrder);
    forall f ensures f in DeclarationOrder {
      EveryFieldDeclared(f);
    }
  }

  // One lemma per rule: the rule is silent exactly when its condition holds.

  lemma ExternalCandidateIdPasses(r: PreOnboardingRequest, ctx: Context)
    ensures Rule(r, ctx, ExternalCandidateId) == [] <==> (Filled(r.externalCandidateId, 50))
  {
  }

  lemma CrisilOfferIdPasses(r: PreOnboardingRequest, ctx: Context)
    ensures Rule(r, ctx, CrisilOfferId) == [] <==> (Filled(r.crisilOfferId, 50))
  {
  }

  lemma JoiningDatePasses(r: PreOnboardingRequest, ctx: Context)
    ensures Rule(r, ctx, JoiningDate) == [] <==> (r.joiningDate.Some?)
  {
  }

  lemma FirstNamePasses(r: PreOnboardingRequest, ctx: Context)
    ensures Rule(r, ctx, FirstName) == [] <==> (Filled(r.firstName, 100))
  {
  }

  lemma LastNamePasses(r: PreOnboardingRequest, ctx: Context)
    ensures Rule(r, ctx, LastName) == [] <==> (Filled(r.lastName, 100))
  {
  }

  lemma DateOfBirthPasses(r: PreOnboardingRequest, ctx: Context)
    ensures Rule(r, ctx, DateOfBirth) == [] <==> (r.dateOfBirth.Some? && Before(r.dateOfBirth.value, ctx.today))
  {
  }

  lemma PersonalEmailPasses(r: PreOnboardingRequest, ctx: Context)
    ensures Rule(r, ctx, PersonalEmail) == [] <==> (!IsBlank(r.personalEmail) && ctx.isEmail(r.personalEmail.value))
  {
  }

  lemma MobileNumberPasses(r: PreOnboardingRequest, ctx: Context)
    ensures Rule(r, ctx, MobileNumber) == [] <==> (!IsBlank(r.mobileNumber) && IsPhoneNumber(r.mobileNumber.value))
  {
  }

  lemma JoiningStatusPasses(r: PreOnboardingRequest, ctx: Context)
    ensures Rule(r, ctx, JoiningStatus) == [] <==> (OptionalMember(r.joiningStatus, AllowedJoiningStatus))
  {
  }

  lemma GenderPasses(r: PreOnboardingRequest, ctx: Context)
    ensures Rule(r, ctx, Gender) == [] <==> (OptionalMember(r.gender, AllowedGender))
  {
  }

  lemma NationalityPasses(r: PreOnboardingRequest, ctx: Context)
    ensures Rule(r, ctx, Nationality) == [] <==> (BlankOr(r.nationality, s => |s| <= 50))
  {
  }

  lemma MobileCountryCodePasses(r: PreOnboardingRequest, ctx: Context)
    ensures Rule(r, ctx, MobileCountryCode) == [] <==> (BlankOr(r.mobileCountryCode, IsCountryCode))
  {
  }

  lemma AddressLine1Passes(r: PreOnboardingRequest, ctx: Context)
    ensures Rule(r, ctx, AddressLine1) == [] <==> (r.address.None? || Filled(r.address.value.line1, 200))
  {
  }

  lemma AddressCityPasses(r: PreOnboardingRequest, ctx: Context)
    ensures Rule(r, ctx, AddressCity) == [] <==> (r.address.None? || Filled(r.address.value.city, 80))
  {
  }

  lemma AddressPostalCodePasses(r: PreOnboardingRequest, ctx: Context)
    ensures Rule(r, ctx, AddressPostalCode) == [] <==> (r.address.None? || BlankOr(r.address.value.postalCode, IsPostalCode))
  {
  }

  lemma JobManagerEmailPasses(r: PreOnboardingRequest, ctx: Context)
    ensures Rule(r, ctx, JobManagerEmail) == [] <==> (r.job.None? || BlankOr(r.job.value.managerEmail, ctx.isEmail))
  {
  }

  lemma JobWorkLocationTypePasses(r: PreOnboardingRequest, ctx: Context)
    ensures Rule(r, ctx, JobWorkLocationType) == [] <==> (r.job.None? || OptionalMember(r.job.value.workLocationType, AllowedWorkLocationType))
  {
  }

  lemma JobEmployeeTypePasses(r: PreOnboardingRequest, ctx: Context)
    ensures Rule(r, ctx, JobEmployeeType) == [] <==> (r.job.None? || OptionalMember(r.job.value.employeeType, AllowedEmployeeType))
  {
  }

  lemma PayCtcAnnualInInrPasses(r: PreOnboardingRequest, ctx: Context)
    ensures Rule(r, ctx, PayCtcAnnualInInr) == [] <==> (r.pay.None? || r.pay.value.ctcAnnualInInr.None? || r.pay.value.ctcAnnualInInr.value > 0.0)
  {
  }

  lemma PayPayrollCyclePasses(r: PreOnboardingRequest, ctx: Context)
    ensures Rule(r, ctx, PayPayrollCycle) == [] <==> (r.pay.None? || OptionalMember(r.pay.value.payrollCycle, AllowedPayrollCycle))
  {
  }

  lemma KycPanPasses(r: PreOnboardingRequest, ctx: Context)
    ensures Rule(r, ctx, KycPan) == [] <==> (r.kyc.None? || BlankOr(r.kyc.value.pan, IsPan))
  {
  }

  lemma KycAadhaarLast4Passes(r: PreOnboardingRequest, ctx: Context)
    ensures Rule(r, ctx, KycAadhaarLast4) == [] <==> (r.kyc.None? || BlankOr(r.kyc.value.aadhaarLast4, IsTwelveDigits))
  {
  }

  lemma EmergencyContactPhonePasses(r: PreOnboardingRequest, ctx: Context)
    ensures Rule(r, ctx, EmergencyContactPhone) == [] <==> (r.emergencyContact.None? || BlankOr(r.emergencyContact.value.phone, IsPhoneNumber))
  {
  }

  lemma TopLevelPasses(r: PreOnboardingRequest, ctx: Context)
    ensures TopLevelAcceptable(r, ctx) <==>
      && Rule(r, ctx, ExternalCandidateId) == []
      && Rule(r, ctx, CrisilOfferId) == []
      && Rule(r, ctx, JoiningDate) == []
      && Rule(r, ctx, FirstName) == []
      && Rule(r, ctx, LastName) == []
      && Rule(r, ctx, DateOfBirth) == []
      && Rule(r, ctx, PersonalEmail) == []
      && Rule(r, ctx, MobileNumber) == []
      && Rule(r, ctx, JoiningStatus) == []
      && Rule(r, ctx, Gender) == []
      && Rule(r, ctx, Nationality) == []
      && Rule(r, ctx, MobileCountryCode) == []
  {
    ExternalCandidateIdPasses(r, ctx);
    CrisilOfferIdPasses(r, ctx);
    JoiningDatePasses(r, ctx);
    FirstNamePasses(r, ctx);
    LastNamePasses(r, ctx);
    DateOfBirthPasses(r, ctx);
    PersonalEmailPasses(r, ctx);
    MobileNumberPasses(r, ctx);
    JoiningStatusPasses(r, ctx);
    GenderPasses(r, ctx);
    NationalityPasses(r, ctx);
    MobileCountryCodePasses(r, ctx);
  }

  lemma SectionsPass(r: PreOnboardingRequest, ctx: Context)
    ensures (r.address.None? || AddressAcceptable(r.address.value)) <==>
      Rule(r, ctx, AddressLine1) == [] && Rule(r, ctx, AddressCity) == [] && Rule(r, ctx, AddressPostalCode) == []
    ensures (r.job.None? || JobAcceptable(r.job.value, ctx)) <==>
      Rule(r, ctx, JobManagerEmail) == [] && Rule(r, ctx, JobWorkLocationType) == [] && Rule(r, ctx, JobEmployeeType) == []
    ensures (r.pay.None? || PayAcceptable(r.pay.value)) <==>
      Rule(r, ctx, PayCtcAnnualInInr) == [] && Rule(r, ctx, PayPayrollCycle) == []
    ensures (r.kyc.None? || KycAcceptable(r.kyc.value)) <==>
      Rule(r, ctx, KycPan) == [] && Rule(r, ctx, KycAadhaarLast4) == []
    ensures (r.emergencyContact.None? || EmergencyContactAcceptable(r.emergencyContact.value)) <==>
      Rule(r, ctx, EmergencyContactPhone) == []
  {
    AddressLine1Passes(r, ctx);
    AddressCityPasses(r, ctx);
    AddressPostalCodePasses(r, ctx);
    JobManagerEmailPasses(r, ctx);
    JobWorkLocationTypePasses(r, ctx);
    JobEmployeeTypePasses(r, ctx);
    PayCtcAnnualInInrPasses(r, ctx);
    PayPayrollCyclePasses(r, ctx);
    KycPanPasses(r, ctx);
    KycAadhaarLast4Passes(r, ctx);
    EmergencyContactPhonePasses(r, ctx);
  }

  /** Every rule is silent. */
  predicate AllRulesSilent(r: PreOnboardingRequest, ctx: Context) {
    forall f :: Rule(r, ctx, f) == []
  }

  lemma AllRulesSilentIff(r: PreOnboardingRequest, ctx: Context)
    ensures AllRulesSilent(r, ctx) <==> Acceptable(r, ctx)
  {
    TopLevelPasses(r, ctx);
    SectionsPass(r, ctx);
    if Acceptable(r, ctx) {
      forall f ensures Rule(r, ctx, f) == [] {
        match f
        case ExternalCandidateId =>
        case CrisilOfferId =>
        case JoiningDate =>
        case FirstName =>
        case LastName =>
        case DateOfBirth =>
        case PersonalEmail =>
        case MobileNumber =>
        case JoiningStatus =>
        case Gender =>
        case Nationality =>
        case MobileCountryCode =>
        case AddressLine1 =>
        case AddressCity =>
        case AddressPostalCode =>
        case JobManagerEmail =>
        case JobWorkLocationType =>
        case JobEmployeeType =>
        case PayCtcAnnualInInr =>
        case PayPayrollCycle =>
        case KycPan =>
        case KycAadhaarLast4 =>
        case EmergencyContactPhone =>
      }
    }
  }

  /** The validator reports nothing exactly when the request is acceptable. */
  lemma AcceptedIff(r: PreOnboardingRequest, ctx: Context)
    ensures Validate(r, ctx) == [] <==> Acceptable(r, ctx)
  {
    ValidateEmpty(r, ctx);
    AllRulesSilentIff(r, ctx);
  }

  // ---------------------------------------------------------------------------
  // Codes and messages

  /** The failure comes from a check the validator declares. */
  predicate Declared(v: Violation) {
    Declares(v.field, v.code)
  }

  lemma TopLevelMessagesDeclared(r: PreOnboardingRequest, ctx: Context, f: Field)
    requires SectionOf(f) == TopLevel
    ensures forall v :: v in TopLevelRule(r, ctx, f) ==> Declared(v)
  {
    match f
    case ExternalCandidateId =>
    case CrisilOfferId =>
    case JoiningDate =>
    case FirstName =>
    case LastName =>
    case DateOfBirth =>
    case PersonalEmail =>
    case MobileNumber =>
    case JoiningStatus =>
    case Gender =>
    case Nationality =>
    case MobileCountryCode =>
  }

  lemma AddressMessagesDeclared(a: AddressDto, f: Field)
    requires SectionOf(f) == Address
    ensures forall v :: v in AddressRule(a, f) ==> Declared(v)
  {
    match f
    case AddressLine1 =>
    case AddressCity =>
    case AddressPostalCode =>
  }

  lemma JobMessagesDeclared(j: JobDto, ctx: Context, f: Field)
    requires SectionOf(f) == Job
    ensures forall v :: v in JobRule(j, ctx, f) ==> Declared(v)
  {
    match f
    case JobManagerEmail =>
    case JobWorkLocationType =>
    case JobEmployeeType =>
  }

  lemma PayMessagesDeclared(p: PayDto, f: Field)
    requires SectionOf(f) == Pay
    ensures forall v :: v in PayRule(p, f) ==> Declared(v)
  {
    match f
    case PayCtcAnnualInInr =>
    case PayPayrollCycle =>
  }

  lemma KycMessagesDeclared(k: KycDto, f: Field)
    requires SectionOf(f) == Kyc
    ensures forall v :: v in KycRule(k, f) ==> Declared(v)
  {
    match f
    case KycPan =>
    case KycAadhaarLast4 =>
  }

  lemma EmergencyContactMessagesDeclared(e: EmergencyContactDto, f: Field)
    requires SectionOf(f) == EmergencyContact
    ensures forall v :: v in EmergencyContactRule(e, f) ==> Declared(v)
  {
  }

  lemma RuleMessagesDeclared(r: PreOnboardingRequest, ctx: Context, f: Field)
    ensures forall v :: v in Rule(r, ctx, f) ==> Declared(v)
  {
    match SectionOf(f)
    case TopLevel => TopLevelMessagesDeclared(r, ctx, f);
    case Address => if r.address.Some? { AddressMessagesDeclared(r.address.value, f); }
    case Job => if r.job.Some? { JobMessagesDeclared(r.job.value, ctx, f); }
    case Pay => if r.pay.Some? { PayMessagesDeclared(r.pay.value, f); }
    case Kyc => if r.kyc.Some? { KycMessagesDeclared(r.kyc.value, f); }
    case EmergencyContact =>
      if r.emergencyContact.Some? { EmergencyContactMessagesDeclared(r.emergencyContact.value, f); }
  }

  /** Every failure the validator reports comes from a check it declares. */
  lemma ValidateMessagesDeclared(r: PreOnboardingRequest, ctx: Context)
    ensures forall v :: v in Validate(r, ctx) ==> Declared(v)
  {
    forall v | v in Validate(r, ctx) ensures Declared(v) {
      RuleMessagesDeclared(r, ctx, v.field);
    }
  }

  /** No code is blank, so the controller's fallback code `INVALID` never
      applies to a validator failure. */
  lemma CodeNameIsNotBlank(c: Code)
    ensures !IsBlank(Some(CodeName(c)))
  {
    assert !IsWhiteSpace(CodeName(c)[0]);
  }
}
