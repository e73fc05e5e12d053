/** `PreOnboardingRequestValidator`: every rule runs, every failure is kept,
    and failures come out in the order the rules are declared. A failure names
    the C# property chain it concerns (`Address.Postal_Code`), an error code and
    a message. */
module Validation {
  import opened Wrappers
  import opened Text
  import opened Dates
  import opened Contracts

  // ---------------------------------------------------------------------------
  // Allowed-value sets, compared with ordinal case-insensitive equality

  const AllowedJoiningStatus: seq<string> := ["OnboardingInitiated", "Joined", "Cancelled", "OnHold"]
  const AllowedGender: seq<string> := ["Male", "Female", "Other", "Do not prefer to disclose"]
  const AllowedWorkLocationType: seq<string> := ["Onsite", "Remote", "Hybrid"]
  const AllowedPayrollCycle: seq<string> := ["Monthly", "Annually"]
  const AllowedEmployeeType: seq<string> := ["Third Party", "Permanent", "Intern"]

  /** `HashSet<string>(StringComparer.OrdinalIgnoreCase).Contains(v)`. */
  predicate InSet(v: string, allowed: seq<string>) {
    exists a | a in allowed :: EqualsIgnoreCase(v, a)
  }

  /** An enumerated field passes when blank or a case-insensitive member of its set. */
  predicate OptionalMember(v: Option<string>, allowed: seq<string>) {
    IsBlank(v) || InSet(v.value, allowed)
  }

  // ---------------------------------------------------------------------------
  // The regular expressions, as character predicates

  /** The text a `^…$` pattern must match in full: .NET's `$` also matches just
      before a final '\n', so one trailing newline is ignored. */
  function Anchored(s: string): (t: string)
    ensures SpansAll(s, t)
    ensures s == t + "\n" <==> |s| > 0 && s[|s| - 1] == '\n'
  {
    if |s| > 0 && s[|s| - 1] == '\n' then s[..|s| - 1] else s
  }

  /** `s` is the text `t`, or `t` followed by the one newline `$` tolerates. */
  predicate SpansAll(s: string, t: string) {
    s == t || s == t + "\n"
  }

  /** For a text not ending in a newline, `Anchored` keeps exactly it of the
      strings it spans. */
  lemma AnchoredIs(s: string, t: string)
    requires |t| == 0 || t[|t| - 1] != '\n'
    ensures Anchored(s) == t <==> SpansAll(s, t)
  {
    if s == t + "\n" {
      assert s[..|s| - 1] == t;
    }
  }

  /** Between `lo` and `hi` ASCII digits and nothing else. */
  predicate DigitRun(s: string, lo: nat, hi: nat) {
    lo <= |s| <= hi && AllDigits(s)
  }

  /** A `^\d{lo,hi}$` pattern matches exactly the runs of `lo` to `hi` digits,
      with or without one final newline. */
  lemma DigitRunMatches(s: string, lo: nat, hi: nat)
    requires lo >= 1
    ensures DigitRun(Anchored(s), lo, hi) <==> exists t :: SpansAll(s, t) && DigitRun(t, lo, hi)
  {
    if exists t :: SpansAll(s, t) && DigitRun(t, lo, hi) {
      var t :| SpansAll(s, t) && DigitRun(t, lo, hi);
      assert IsDigit(t[|t| - 1]);
      AnchoredIs(s, t);
    }
  }

  /** `^\d{8,15}$` */
  predicate IsPhoneNumber(s: string) {
    DigitRun(Anchored(s), 8, 15)
  }

  lemma PhoneNumberMatches(s: string)
    ensures IsPhoneNumber(s) <==> exists t :: SpansAll(s, t) && DigitRun(t, 8, 15)
  {
    DigitRunMatches(s, 8, 15);
  }

  /** `^\+\d{1,4}$` */
  predicate IsCountryCode(s: string) {
    var t := Anchored(s);
    |t| >= 1 && t[0] == '+' && DigitRun(t[1..], 1, 4)
  }

  /** The country code is '+' and one to four digits, with or without one
      final newline. */
  lemma CountryCodeMatches(s: string)
    ensures IsCountryCode(s) <==> exists d :: SpansAll(s, "+" + d) && DigitRun(d, 1, 4)
  {
    var t := Anchored(s);
    if IsCountryCode(s) {
      assert "+" + t[1..] == t;
    }
    if exists d :: SpansAll(s, "+" + d) && DigitRun(d, 1, 4) {
      var d :| SpansAll(s, "+" + d) && DigitRun(d, 1, 4);
      var u := "+" + d;
      assert u[|u| - 1] == d[|d| - 1];
      assert IsDigit(d[|d| - 1]);
      AnchoredIs(s, u);
      assert u[1..] == d;
    }
  }

  /** `^\d{4,10}$` */
  predicate IsPostalCode(s: string) {
    DigitRun(Anchored(s), 4, 10)
  }

  lemma PostalCodeMatches(s: string)
    ensures IsPostalCode(s) <==> exists t :: SpansAll(s, t) && DigitRun(t, 4, 10)
  {
    DigitRunMatches(s, 4, 10);
  }

  /** Five capitals, four digits, one capital. */
  predicate PanText(t: string) {
    && |t| == 10
    && (forall i :: 0 <= i < 5 ==> IsUpper(t[i]))
    && (forall i :: 5 <= i < 9 ==> IsDigit(t[i]))
    && IsUpper(t[9])
  }

  /** `^[A-Z]{5}\d{4}[A-Z]{1}$` */
  predicate IsPan(s: string) {
    PanText(Anchored(s))
  }

  lemma PanMatches(s: string)
    ensures IsPan(s) <==> exists t :: SpansAll(s, t) && PanText(t)
  {
    if exists t :: SpansAll(s, t) && PanText(t) {
      var t :| SpansAll(s, t) && PanText(t);
      AnchoredIs(s, t);
    }
  }

  /** `^\d{12}$` (the rule guarding `aadhaar_last4`) */
  predicate IsTwelveDigits(s: string) {
    DigitRun(Anchored(s), 12, 12)
  }

  lemma TwelveDigitsMatches(s: string)
    ensures IsTwelveDigits(s) <==> exists t :: SpansAll(s, t) && DigitRun(t, 12, 12)
  {
    DigitRunMatches(s, 12, 12);
  }

  // ---------------------------------------------------------------------------
  // Rule targets

  /** The properties the rules are declared for, in declaration order. */
  datatype Field =
    | ExternalCandidateId | CrisilOfferId | JoiningDate | FirstName | LastName
    | DateOfBirth | PersonalEmail | MobileNumber | JoiningStatus | Gender
    | Nationality | MobileCountryCode
    | AddressLine1 | AddressCity | AddressPostalCode
    | JobManagerEmail | JobWorkLocationType | JobEmployeeType
    | PayCtcAnnualInInr | PayPayrollCycle
    | KycPan | KycAadhaarLast4
    | EmergencyContactPhone

  /** The property chain FluentValidation reports for a rule's target. */
  function PropertyPath(f: Field): string {
    match f
    case ExternalCandidateId => "External_Candidate_Id"
    case CrisilOfferId => "Crisil_Offer_Id"
    case JoiningDate => "Joining_Date"
    case FirstName => "First_Name"
    case LastName => "Last_Name"
    case DateOfBirth => "Date_Of_Birth"
    case PersonalEmail => "Personal_Email"
    case MobileNumber => "Mobile_Number"
    case JoiningStatus => "Joining_Status"
    case Gender => "Gender"
    case Nationality => "Nationality"
    case MobileCountryCode => "Mobile_Country_Code"
    case AddressLine1 => "Address.Line1"
    case AddressCity => "Address.City"
    case AddressPostalCode => "Address.Postal_Code"
    case JobManagerEmail => "Job.Manager_Email"
    case JobWorkLocationType => "Job.Work_Location_Type"
    case JobEmployeeType => "Job.Employee_Type"
    case PayCtcAnnualInInr => "Pay.Ctc_Annual_In_Inr"
    case PayPayrollCycle => "Pay.Payroll_Cycle"
    case KycPan => "Kyc.Pan"
    case KycAadhaarLast4 => "Kyc.Aadhaar_Last4"
    case EmergencyContactPhone => "Emergency_Contact.Phone"
  }

  /** The rules in the order the validator declares them. */
  const DeclarationOrder: seq<Field> := [
    ExternalCandidateId, CrisilOfferId, JoiningDate, FirstName, LastName,
    DateOfBirth, PersonalEmail, MobileNumber, JoiningStatus, Gender,
    Nationality, MobileCountryCode,
    AddressLine1, AddressCity, AddressPostalCode,
    JobManagerEmail, JobWorkLocationType, JobEmployeeType,
    PayCtcAnnualInInr, PayPayrollCycle,
    KycPan, KycAadhaarLast4,
    EmergencyContactPhone]

  /** Position of a rule in the declaration order. */
  function Rank(f: Field): nat {
    match f
    case ExternalCandidateId => 0
    case CrisilOfferId => 1
    case JoiningDate => 2
    case FirstName => 3
    case LastName => 4
    case DateOfBirth => 5
    case PersonalEmail => 6
    case MobileNumber => 7
    case JoiningStatus => 8
    case Gender => 9
    case Nationality => 10
    case MobileCountryCode => 11
    case AddressLine1 => 12
    case AddressCity => 13
    case AddressPostalCode => 14
    case JobManagerEmail => 15
    case JobWorkLocationType => 16
    case JobEmployeeType => 17
    case PayCtcAnnualInInr => 18
    case PayPayrollCycle => 19
    case KycPan => 20
    case KycAadhaarLast4 => 21
    case EmergencyContactPhone => 22
  }

  /** The part of the request a rule belongs to. */
  datatype Section = TopLevel | Address | Job | Pay | Kyc | EmergencyContact

  function SectionOf(f: Field): Section {
    match f
    case AddressLine1 | AddressCity | AddressPostalCode => Address
    case JobManagerEmail | JobWorkLocationType | JobEmployeeType => Job
    case PayCtcAnnualInInr | PayPayrollCycle => Pay
    case KycPan | KycAadhaarLast4 => Kyc
    case EmergencyContactPhone => EmergencyContact
    case _ => TopLevel
  }

  /** The request carries the section (top-level fields are always there). */
  predicate SectionPresent(r: PreOnboardingRequest, s: Section) {
    match s
    case TopLevel => true
    case Address => r.address.Some?
    case Job => r.job.Some?
    case Pay => r.pay.Some?
    case Kyc => r.kyc.Some?
    case EmergencyContact => r.emergencyContact.Some?
  }

  // ---------------------------------------------------------------------------
  // Rule evaluation

  /** The error codes the rules attach (`WithErrorCode`). */
  datatype Code =
    | Required | MaxLength | InvalidDate | InvalidEmail | InvalidMobile
    | InvalidEnum | InvalidCountryCode | InvalidPostal | InvalidRange
    | InvalidPan | InvalidAadhaarLast4

  /** A code as it appears on the wire: an upper-case identifier. */
  function CodeName(c: Code): (s: string)
    ensures |s| > 0 && IsUpper(s[0])
  {
    match c
    case Required => "REQUIRED"
    case MaxLength => "MAX_LENGTH"
    case InvalidDate => "INVALID_DATE"
    case InvalidEmail => "INVALID_EMAIL"
    case InvalidMobile => "INVALID_MOBILE"
    case InvalidEnum => "INVALID_ENUM"
    case InvalidCountryCode => "INVALID_COUNTRY_CODE"
    case InvalidPostal => "INVALID_POSTAL"
    case InvalidRange => "INVALID_RANGE"
    case InvalidPan => "INVALID_PAN"
    case InvalidAadhaarLast4 => "INVALID_AADHAAR_LAST4"
  }

  /** One validation failure (FluentValidation's `ValidationFailure`); its
      message is the one the failing check declares, `Message(field, code)`. */
  datatype Violation = Violation(field: Field, code: Code) {
    function PropertyName(): string {
      PropertyPath(field)
    }
  }

  /** The (field, code) pairs for which the validator declares a check. */
  predicate Declares(f: Field, c: Code) {
    match f
    case ExternalCandidateId => c == Required || c == MaxLength
    case CrisilOfferId => c == Required || c == MaxLength
    case JoiningDate => c == Required
    case FirstName => c == Required || c == MaxLength
    case LastName => c == Required || c == MaxLength
    case DateOfBirth => c == Required || c == InvalidDate
    case PersonalEmail => c == Required || c == InvalidEmail
    case MobileNumber => c == Required || c == InvalidMobile
    case JoiningStatus => c == InvalidEnum
    case Gender => c == InvalidEnum
    case Nationality => c == MaxLength
    case MobileCountryCode => c == InvalidCountryCode
    case AddressLine1 => c == Required || c == MaxLength
    case AddressCity => c == Required || c == MaxLength
    case AddressPostalCode => c == InvalidPostal
    case JobManagerEmail => c == InvalidEmail
    case JobWorkLocationType => c == InvalidEnum
    case JobEmployeeType => c == InvalidEnum
    case PayCtcAnnualInInr => c == InvalidRange
    case PayPayrollCycle => c == InvalidEnum
    case KycPan => c == InvalidPan
    case KycAadhaarLast4 => c == InvalidAadhaarLast4
    case EmergencyContactPhone => c == InvalidMobile
  }

  /** The message each check declares (`WithMessage`). Every rule has at most
      one check per code, so the rule and the code determine the message;
      pairs that no rule produces have the empty message. */
  function Message(f: Field, c: Code): string {
    match (f, c)
    case (ExternalCandidateId, Required) => "external_candidate_id is mandatory."
    case (ExternalCandidateId, MaxLength) => "external_candidate_id max length is 50."
    case (CrisilOfferId, Required) => "crisil_offer_id is mandatory."
    case (CrisilOfferId, MaxLength) => "crisil_offer_id max length is 50."
    case (JoiningDate, Required) => "joining_date is mandatory."
    case (FirstName, Required) => "first_name is mandatory."
    case (FirstName, MaxLength) => "first_name max length is 100."
    case (LastName, Required) => "last_name is mandatory."
    case (LastName, MaxLength) => "last_name max length is 100."
    case (DateOfBirth, Required) => "date_of_birth is mandatory."
    case (DateOfBirth, InvalidDate) => "date_of_birth must be in the past."
    case (PersonalEmail, Required) => "personal_email is mandatory."
    case (PersonalEmail, InvalidEmail) => "personal_email is not a valid email."
    case (MobileNumber, Required) => "mobile_number is mandatory."
    case (MobileNumber, InvalidMobile) => "mobile_number must be 8-15 digits."
    case (JoiningStatus, InvalidEnum) => "joining_status is invalid. Allowed: OnboardingInitiated/Joined/Cancelled/OnHold."
    case (Gender, InvalidEnum) => "gender is invalid. Allowed: Male/Female/Other/Do not prefer to disclose."
    case (Nationality, MaxLength) => "nationality max length is 50."
    case (MobileCountryCode, InvalidCountryCode) => "mobile_country_code must be like +91."
    case (AddressLine1, Required) => "address.line1 is required when address is provided."
    case (AddressLine1, MaxLength) => "address.line1 max length is 200."
    case (AddressCity, Required) => "address.city is required when address is provided."
    case (AddressCity, MaxLength) => "address.city max length is 80."
    case (AddressPostalCode, InvalidPostal) => "address.postal_code must be 4-10 digits."
    case (JobManagerEmail, InvalidEmail) => "job.manager_email is not a valid email."
    case (JobWorkLocationType, InvalidEnum) => "job.work_location_type is invalid. Allowed: Onsite/Remote/Hybrid."
    case (JobEmployeeType, InvalidEnum) => "job.employee_type is invalid. Allowed: Third Party/Permanent/Intern."
    case (PayCtcAnnualInInr, InvalidRange) => "pay.ctc_annual_in_inr must be > 0."
    case (PayPayrollCycle, InvalidEnum) => "pay.payroll_cycle is invalid. Allowed: Monthly/Weekly/BiWeekly."
    case (KycPan, InvalidPan) => "kyc.pan is invalid."
    case (KycAadhaarLast4, InvalidAadhaarLast4) => "kyc.aadhaar_last4 must be 12 digits."
    case (EmergencyContactPhone, InvalidMobile) => "emergency_contact.phone must be 8-15 digits."
    case _ => ""
  }

  /** What the validator cannot decide alone: the current UTC date and the
      e-mail syntax check of the validation library. */
  datatype Context = Context(today: Date, isEmail: string -> bool)

  /** A single failure when `failed` holds. */
  function Check(f: Field, failed: bool, code: Code): (vs: seq<Violation>)
    ensures |vs| <= 1
    ensures forall v :: v in vs ==> v.field == f
    ensures forall v :: v in vs ==> v.code == code
  {
    if failed then [Violation(f, code)] else []
  }

  /** `NotEmpty()`: null, empty or white space fails. */
  function NotEmpty(f: Field, v: Option<string>): (vs: seq<Violation>)
    ensures vs == [] <==> v.Some? && exists i :: 0 <= i < |v.value| && !IsWhiteSpace(v.value[i])
    ensures vs != [] ==> vs == [Violation(f, Required)]
  {
    Check(f, IsBlank(v), Required)
  }

  /** `MaximumLength(n)`: null passes, otherwise at most `n` characters. */
  function MaximumLength(f: Field, v: Option<string>, n: nat): (vs: seq<Violation>)
    ensures vs == [] <==> v.None? || |v.value| <= n
    ensures vs != [] ==> vs == [Violation(f, MaxLength)]
  {
    Check(f, v.Some? && |v.value| > n, MaxLength)
  }

  /** `Must(v => string.IsNullOrWhiteSpace(v) || allowed.Contains(v))`. */
  function Enumerated(f: Field, v: Option<string>, allowed: seq<string>): (vs: seq<Violation>)
    ensures vs == [] <==> IsBlank(v) || exists i :: 0 <= i < |allowed| && LowerAll(v.value) == LowerAll(allowed[i])
    ensures v.Some? && v.value in allowed ==> vs == []
    ensures vs != [] ==> vs == [Violation(f, InvalidEnum)]
  {
    OptionalMemberAt(v, allowed);
    Check(f, !OptionalMember(v, allowed), InvalidEnum)
  }

  /** Membership by position in the allowed list. */
  lemma OptionalMemberAt(v: Option<string>, allowed: seq<string>)
    ensures OptionalMember(v, allowed) <==>
      IsBlank(v) || exists i :: 0 <= i < |allowed| && LowerAll(v.value) == LowerAll(allowed[i])
  {
    if !IsBlank(v) && InSet(v.value, allowed) {
      var a :| a in allowed && EqualsIgnoreCase(v.value, a);
      var i :| 0 <= i < |allowed| && allowed[i] == a;
    }
    if !IsBlank(v) && exists i :: 0 <= i < |allowed| && LowerAll(v.value) == LowerAll(allowed[i]) {
      var i :| 0 <= i < |allowed| && LowerAll(v.value) == LowerAll(allowed[i]);
      assert allowed[i] in allowed && EqualsIgnoreCase(v.value, allowed[i]);
    }
  }

  /** The failures of the top-level rule declared for `f`. */
  function TopLevelRule(r: PreOnboardingRequest, ctx: Context, f: Field): (vs: seq<Violation>)
    requires SectionOf(f) == TopLevel
    ensures forall v :: v in vs ==> v.field == f
  {
    match f
    case ExternalCandidateId =>
      NotEmpty(f, r.externalCandidateId) + MaximumLength(f, r.externalCandidateId, 50)
    case CrisilOfferId =>
      NotEmpty(f, r.crisilOfferId) + MaximumLength(f, r.crisilOfferId, 50)
    case JoiningDate =>
      Check(f, r.joiningDate.None?, Required)
    case FirstName =>
      NotEmpty(f, r.firstName) + MaximumLength(f, r.firstName, 100)
    case LastName =>
      NotEmpty(f, r.lastName) + MaximumLength(f, r.lastName, 100)
    case DateOfBirth =>
      Check(f, r.dateOfBirth.None?, Required)
      + Check(f, r.dateOfBirth.Some? && !Before(r.dateOfBirth.value, ctx.today), InvalidDate)
    case PersonalEmail =>
      NotEmpty(f, r.personalEmail)
      + Check(f, r.personalEmail.Some? && !ctx.isEmail(r.personalEmail.value), InvalidEmail)
    case MobileNumber =>
      NotEmpty(f, r.mobileNumber)
      + Check(f, r.mobileNumber.Some? && !IsPhoneNumber(r.mobileNumber.value), InvalidMobile)
    case JoiningStatus =>
      Enumerated(f, r.joiningStatus, AllowedJoiningStatus)
    case Gender =>
      Enumerated(f, r.gender, AllowedGender)
    case Nationality =>
      Check(f, !IsBlank(r.nationality) && |r.nationality.value| > 50, MaxLength)
    case MobileCountryCode =>
      Check(f, !IsBlank(r.mobileCountryCode) && !IsCountryCode(r.mobileCountryCode.value), InvalidCountryCode)
  }

  /** The failures of an address rule, for an address that is present. */
  function AddressRule(a: AddressDto, f: Field): (vs: seq<Violation>)
    requires SectionOf(f) == Address
    ensures forall v :: v in vs ==> v.field == f
  {
    match f
    case AddressLine1 =>
      NotEmpty(f, a.line1) + MaximumLength(f, a.line1, 200)
    case AddressCity =>
      NotEmpty(f, a.city) + MaximumLength(f, a.city, 80)
    case AddressPostalCode =>
      Check(f, !IsBlank(a.postalCode) && !IsPostalCode(a.postalCode.value), InvalidPostal)
  }

  /** The failures of a job rule, for a job section that is present. */
  function JobRule(j: JobDto, ctx: Context, f: Field): (vs: seq<Violation>)
    requires SectionOf(f) == Job
    ensures forall v :: v in vs ==> v.field == f
  {
    match f
    case JobManagerEmail =>
      Check(f, !IsBlank(j.managerEmail) && !ctx.isEmail(j.managerEmail.value), InvalidEmail)
    case JobWorkLocationType =>
      Enumerated(f, j.workLocationType, AllowedWorkLocationType)
    case JobEmployeeType =>
      Enumerated(f, j.employeeType, AllowedEmployeeType)
  }

  /** The failures of a pay rule, for a pay section that is present. */
  function PayRule(p: PayDto, f: Field): (vs: seq<Violation>)
    requires SectionOf(f) == Pay
    ensures forall v :: v in vs ==> v.field == f
  {
    match f
    case PayCtcAnnualInInr =>
      Check(f, p.ctcAnnualInInr.Some? && !(p.ctcAnnualInInr.value > 0.0), InvalidRange)
    case PayPayrollCycle =>
      Enumerated(f, p.payrollCycle, AllowedPayrollCycle)
  }

  /** The failures of a KYC rule, for a KYC section that is present. */
  function KycRule(k: KycDto, f: Field): (vs: seq<Violation>)
    requires SectionOf(f) == Kyc
    ensures forall v :: v in vs ==> v.field == f
  {
    match f
    case KycPan =>
      Check(f, !IsBlank(k.pan) && !IsPan(k.pan.value), InvalidPan)
    case KycAadhaarLast4 =>
      Check(f, !IsBlank(k.aadhaarLast4) && !IsTwelveDigits(k.aadhaarLast4.value), InvalidAadhaarLast4)
  }

  /** The failures of the emergency-contact rule, for a section that is present. */
  function EmergencyContactRule(e: EmergencyContactDto, f: Field): (vs: seq<Violation>)
    requires SectionOf(f) == EmergencyContact
    ensures forall v :: v in vs ==> v.field == f
  {
    Check(f, !IsBlank(e.phone) && !IsPhoneNumber(e.phone.value), InvalidMobile)
  }

  /** The failures of the rule declared for `f`; a rule inside a section's
      `When(section is not null)` block reports nothing when the section is absent. */
  function Rule(r: PreOnboardingRequest, ctx: Context, f: Field): (vs: seq<Violation>)
    ensures forall v :: v in vs ==> v.field == f
    ensures vs != [] ==> SectionPresent(r, SectionOf(f))
  {
    match SectionOf(f)
    case TopLevel => TopLevelRule(r, ctx, f)
    case Address => if r.address.None? then [] else AddressRule(r.address.value, f)
    case Job => if r.job.None? then [] else JobRule(r.job.value, ctx, f)
    case Pay => if r.pay.None? then [] else PayRule(r.pay.value, f)
    case Kyc => if r.kyc.None? then [] else KycRule(r.kyc.value, f)
    case EmergencyContact =>
      if r.emergencyContact.None? then [] else EmergencyContactRule(r.emergencyContact.value, f)
  }

  /** The failures of the rules for `fields`, rule after rule. */
  function Collect(r: PreOnboardingRequest, ctx: Context, fields: seq<Field>): (vs: seq<Violation>)
    ensures forall v :: v in vs ==> v.field in fields && v in Rule(r, ctx, v.field)
  {
    if |fields| == 0 then [] else Rule(r, ctx, fields[0]) + Collect(r, ctx, fields[1..])
  }

  /** Runs the whole validator. */
  function Validate(r: PreOnboardingRequest, ctx: Context): (vs: seq<Violation>)
    ensures forall v :: v in vs ==> v in Rule(r, ctx, v.field)
  {
    Collect(r, ctx, DeclarationOrder)
  }
}
