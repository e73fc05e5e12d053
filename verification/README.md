# Pre-onboarding intake and query core

This project models the request-handling core of the CRISIL pre-onboarding API in Dafny. An HR system posts a candidate record. The API checks two credential headers and runs a FluentValidation rule set over the record. It stores the record once per (external candidate id, CRISIL offer id) pair. It answers with an envelope: success, 400 VALIDATION_FAILED, 401 UNAUTHORIZED, 404 NOT_FOUND or 409 DUPLICATE_REQUEST. Stored records can be read back by id or searched with filters and paging.

The model is functional. Requests, sections, entities and envelopes are immutable datatypes with `Option` fields. The table is a sequence of rows plus the identity counter. Every operation is a pure function of its inputs.

| module | file | what it holds |
|---|---|---|
| `Wrappers`, `Text`, `Dates` | `wrappers.dfy`, `text.dfy`, `dates.dfy` | `Option`/`Result`, ASCII character classes and casing, calendar dates |
| `Contracts` | `contracts.dfy` | request, sections, response, error envelope, stored entity |
| `Validation` | `validation.dfy` | the allowed-value sets, the pattern predicates and every rule of the validator, in declaration order |
| `ValidationProperties` | `validation_properties.dfy` | what each rule reports, order, section independence, acceptance as one predicate |
| `SnakeCase`, `WireNames` | `snake_case.dfy`, `wire_names.dfy` | the property-path normaliser, plus the wire name of every rule target |
| `Store` | `store.dfy` | the table with its identity column and unique key pair |
| `Controller` | `controller.dfy` | the header check, Create, GetById, the read-side mapping and the search endpoint |
| `Search` | `search.dfy` | clamping, filtering, ordering by descending id, and paging |
| `DateParser` | `date_parser.dfy` | the exact `dd-MM-yyyy` parser and its formatting inverse |
| `BindingErrors` | `binding_errors.dfy` | the response factory for bodies that fail to bind |
| `Scenarios` | `scenarios.dfy` | concrete inputs worked through the model |

The model depends on some things outside the code. Each one is a parameter:
- The current UTC date for the date-of-birth rule is `Context.today`.
- FluentValidation's email check is `Context.isEmail`.
- The JSON mapping of each nested section is a `Codec` made of a serialiser and a deserialiser. `Faithful(codec)` is the property that a serialised value reads back unchanged. Only the read-back lemma assumes it.
- The clock value stamped on a new row is `Env.now`.
- The trace id is a string carried by the request.

Where the code's names or messages disagree with what it checks, the model follows the code:
- `kyc.aadhaar_last4` must be exactly twelve digits (`IsTwelveDigits`).
- `pay.payroll_cycle` is checked against the set {Monthly, Annually}. The rule's own message names Monthly/Weekly/BiWeekly instead.
- Search receives its `from`/`to` bounds already bound as dates. The code does not run them through `DateParser`.
- The request declares `Joining_Date` and `Date_Of_Birth` as strings. The validator and the controller use them as nullable dates, so the model carries them as `Option<Date>`.

## Model

Source paths below are relative to the repository root.

| member | source | states |
|---|---|---|
| Validation.CodeName | CrisilPreOnboardingApi/Validation/PreOnboardingRequestValidator.cs:36-147 | every error code a rule attaches is a non-empty identifier starting with an upper-case letter |
| Validation.Check | CrisilPreOnboardingApi/Validation/PreOnboardingRequestValidator.cs:36-147 | one validator step reports at most one failure, carrying its rule's property and its own code |
| Validation.TopLevelRule | CrisilPreOnboardingApi/Validation/PreOnboardingRequestValidator.cs:36-86 | a top-level rule reports failures only for its own property |
| Validation.AddressRule | CrisilPreOnboardingApi/Validation/PreOnboardingRequestValidator.cs:88-101 | an address rule reports failures only for its own property |
| Validation.JobRule | CrisilPreOnboardingApi/Validation/PreOnboardingRequestValidator.cs:103-118 | a job rule reports failures only for its own property |
| Validation.PayRule | CrisilPreOnboardingApi/Validation/PreOnboardingRequestValidator.cs:120-130 | a pay rule reports failures only for its own property |
| Validation.KycRule | CrisilPreOnboardingApi/Validation/PreOnboardingRequestValidator.cs:132-141 | a KYC rule reports failures only for its own property |
| Validation.EmergencyContactRule | CrisilPreOnboardingApi/Validation/PreOnboardingRequestValidator.cs:143-148 | the emergency-contact rule reports failures only for its own property |
| Validation.Rule | CrisilPreOnboardingApi/Validation/PreOnboardingRequestValidator.cs:33-149 | a rule reports only its own property, and only when the request carries that property's section |
| Validation.Collect | CrisilPreOnboardingApi/Validation/PreOnboardingRequestValidator.cs:33-149 | every collected failure was reported by the rule of one of the listed properties |
| Validation.Validate | CrisilPreOnboardingApi/Validation/PreOnboardingRequestValidator.cs:33-149 | every reported failure is one the rule of its own property raises |
| Validation.Anchored | CrisilPreOnboardingApi/Validation/PreOnboardingRequestValidator.cs:67 | the text a `^…$` pattern must match is the value itself, or the value without its final character exactly when that character is '\n' (the .NET meaning of `$`) |
| Validation.AnchoredIs | CrisilPreOnboardingApi/Validation/PreOnboardingRequestValidator.cs:67 | for a text not ending in a newline, the anchored text is that text exactly when the value is it, or it followed by one newline |
| Validation.DigitRunMatches | CrisilPreOnboardingApi/Validation/PreOnboardingRequestValidator.cs:67 | a `^\d{lo,hi}$` pattern accepts exactly the runs of lo to hi ASCII digits, alone or followed by one newline |
| Validation.PhoneNumberMatches | CrisilPreOnboardingApi/Validation/PreOnboardingRequestValidator.cs:67 | the mobile pattern, also used for the emergency-contact phone at line 146, accepts exactly 8 to 15 digits, alone or followed by one newline |
| Validation.CountryCodeMatches | CrisilPreOnboardingApi/Validation/PreOnboardingRequestValidator.cs:85 | the country-code pattern accepts exactly '+' and 1 to 4 digits, alone or followed by one newline |
| Validation.PostalCodeMatches | CrisilPreOnboardingApi/Validation/PreOnboardingRequestValidator.cs:99 | the postal pattern accepts exactly 4 to 10 digits, alone or followed by one newline |
| Validation.PanMatches | CrisilPreOnboardingApi/Validation/PreOnboardingRequestValidator.cs:135 | the PAN pattern accepts exactly five capitals, four digits and a capital, alone or followed by one newline |
| Validation.TwelveDigitsMatches | CrisilPreOnboardingApi/Validation/PreOnboardingRequestValidator.cs:139 | the aadhaar pattern accepts exactly 12 digits, alone or followed by one newline |
| Validation.NotEmpty | CrisilPreOnboardingApi/Validation/PreOnboardingRequestValidator.cs:37 | fails exactly when the value is null or has no non-white-space character, and then reports one REQUIRED failure |
| Validation.MaximumLength | CrisilPreOnboardingApi/Validation/PreOnboardingRequestValidator.cs:38 | null passes; otherwise fails exactly when the text is longer than the limit, and then reports one MAX_LENGTH failure |
| Validation.Enumerated | CrisilPreOnboardingApi/Validation/PreOnboardingRequestValidator.cs:71 | passes exactly when the value is blank or equals an allowed value up to ASCII case; an allowed value as written always passes; a failure is one INVALID_ENUM |
| Validation.OptionalMemberAt | CrisilPreOnboardingApi/Validation/PreOnboardingRequestValidator.cs:8-31 | the case-insensitive set lookup finds a value exactly when some listed value equals it up to ASCII case |
| ValidationProperties.DeclarationOrderAscending | CrisilPreOnboardingApi/Validation/PreOnboardingRequestValidator.cs:33-149 | the rules run in the order the constructor declares them, each once |
| ValidationProperties.EveryFieldDeclared | CrisilPreOnboardingApi/Validation/PreOnboardingRequestValidator.cs:33-149 | every rule target is evaluated by the validator |
| ValidationProperties.CollectFor | CrisilPreOnboardingApi/Validation/PreOnboardingRequestValidator.cs:33-149 | over rules in declaration order, the failures for one property are exactly that property's rule failures, in order, or none if the rule is not listed |
| ValidationProperties.ValidateFor | CrisilPreOnboardingApi/Validation/PreOnboardingRequestValidator.cs:33-149 | all rules run: the failures reported for a property are exactly those of its rule, whatever the other rules report |
| ValidationProperties.CollectInRuleOrder | CrisilPreOnboardingApi/Validation/PreOnboardingRequestValidator.cs:33-149 | collected failures never go back to an earlier rule |
| ValidationProperties.ValidateInDeclarationOrder | CrisilPreOnboardingApi/Validation/PreOnboardingRequestValidator.cs:33-149 | the failure list is ordered by rule declaration |
| ValidationProperties.IdentifierTable | CrisilPreOnboardingApi/Validation/PreOnboardingRequestValidator.cs:36-42 | each id gives REQUIRED when null or whitespace and, independently, MAX_LENGTH when non-null and over 50 characters, in that order |
| ValidationProperties.NameTable | CrisilPreOnboardingApi/Validation/PreOnboardingRequestValidator.cs:47-53 | each name gives REQUIRED when null or whitespace and, independently, MAX_LENGTH when non-null and over 100 characters |
| ValidationProperties.MandatoryTextRules | CrisilPreOnboardingApi/Validation/PreOnboardingRequestValidator.cs:36-53 | in the full failure list the ids and names carry exactly those REQUIRED/MAX_LENGTH codes |
| ValidationProperties.MandatoryDateTable | CrisilPreOnboardingApi/Validation/PreOnboardingRequestValidator.cs:44-59 | a missing date gives REQUIRED only; a date of birth not strictly before today gives INVALID_DATE |
| ValidationProperties.MandatoryDateRules | CrisilPreOnboardingApi/Validation/PreOnboardingRequestValidator.cs:44-59 | the same codes for the two dates in the full failure list |
| ValidationProperties.ContactTable | CrisilPreOnboardingApi/Validation/PreOnboardingRequestValidator.cs:61-67 | email: REQUIRED when blank, INVALID_EMAIL when non-null and rejected by the email check; mobile: REQUIRED when blank, INVALID_MOBILE when non-null and not 8-15 digits |
| ValidationProperties.ContactRules | CrisilPreOnboardingApi/Validation/PreOnboardingRequestValidator.cs:61-67 | the same codes for email and mobile in the full failure list |
| ValidationProperties.JoiningStatusCodes | CrisilPreOnboardingApi/Validation/PreOnboardingRequestValidator.cs:70-73 | joining status gives INVALID_ENUM exactly when non-blank and not a case-insensitive member of its set |
| ValidationProperties.GenderCodes | CrisilPreOnboardingApi/Validation/PreOnboardingRequestValidator.cs:75-78 | gender gives INVALID_ENUM exactly when non-blank and outside its set |
| ValidationProperties.JobWorkLocationTypeCodes | CrisilPreOnboardingApi/Validation/PreOnboardingRequestValidator.cs:109-112 | a present job's work location type gives INVALID_ENUM exactly when non-blank and outside its set |
| ValidationProperties.JobEmployeeTypeCodes | CrisilPreOnboardingApi/Validation/PreOnboardingRequestValidator.cs:114-117 | a present job's employee type gives INVALID_ENUM exactly when non-blank and outside its set |
| ValidationProperties.PayPayrollCycleCodes | CrisilPreOnboardingApi/Validation/PreOnboardingRequestValidator.cs:126-129 | a present pay section's payroll cycle gives INVALID_ENUM exactly when non-blank and outside {Monthly, Annually} |
| ValidationProperties.EnumRules | CrisilPreOnboardingApi/Validation/PreOnboardingRequestValidator.cs:70-129 | the five enumerated properties carry exactly those INVALID_ENUM codes in the full failure list |
| ValidationProperties.OptionalFormatTable | CrisilPreOnboardingApi/Validation/PreOnboardingRequestValidator.cs:80-86 | nationality and country code are checked only when non-blank: over 50 characters gives MAX_LENGTH, anything but `+` and 1-4 digits gives INVALID_COUNTRY_CODE |
| ValidationProperties.OptionalFormatRules | CrisilPreOnboardingApi/Validation/PreOnboardingRequestValidator.cs:80-86 | the same codes for nationality and country code in the full failure list |
| ValidationProperties.AddressLine1Codes | CrisilPreOnboardingApi/Validation/PreOnboardingRequestValidator.cs:90-92 | with an address, a blank line1 gives REQUIRED and a line1 over 200 characters gives MAX_LENGTH |
| ValidationProperties.AddressCityCodes | CrisilPreOnboardingApi/Validation/PreOnboardingRequestValidator.cs:94-96 | with an address, a blank city gives REQUIRED and a city over 80 characters gives MAX_LENGTH |
| ValidationProperties.AddressPostalCodeCodes | CrisilPreOnboardingApi/Validation/PreOnboardingRequestValidator.cs:98-100 | with an address, a non-blank postal code that is not 4-10 digits gives INVALID_POSTAL |
| ValidationProperties.AddressRules | CrisilPreOnboardingApi/Validation/PreOnboardingRequestValidator.cs:88-101 | the address codes in the full failure list, none without an address |
| ValidationProperties.KycPanCodes | CrisilPreOnboardingApi/Validation/PreOnboardingRequestValidator.cs:134-136 | with a KYC section, a non-blank PAN not of the form five capitals, four digits, one capital gives INVALID_PAN |
| ValidationProperties.KycAadhaarLast4Codes | CrisilPreOnboardingApi/Validation/PreOnboardingRequestValidator.cs:138-140 | with a KYC section, a non-blank aadhaar_last4 that is not exactly 12 digits gives INVALID_AADHAAR_LAST4 |
| ValidationProperties.PayCtcAnnualInInrCodes | CrisilPreOnboardingApi/Validation/PreOnboardingRequestValidator.cs:122-124 | with a pay section, a non-null CTC that is not above zero gives INVALID_RANGE |
| ValidationProperties.JobManagerEmailCodes | CrisilPreOnboardingApi/Validation/PreOnboardingRequestValidator.cs:105-107 | with a job section, a non-blank manager email rejected by the email check gives INVALID_EMAIL |
| ValidationProperties.EmergencyContactPhoneCodes | CrisilPreOnboardingApi/Validation/PreOnboardingRequestValidator.cs:145-147 | with an emergency contact, a non-blank phone that is not 8-15 digits gives INVALID_MOBILE |
| ValidationProperties.SectionFormatRules | CrisilPreOnboardingApi/Validation/PreOnboardingRequestValidator.cs:103-148 | the pattern and range codes of the job, pay, KYC and emergency-contact sections in the full failure list |
| ValidationProperties.AbsentSectionIsSilent | CrisilPreOnboardingApi/Validation/PreOnboardingRequestValidator.cs:88-148 | no failure names a property of a section the request leaves out |
| ValidationProperties.TopLevelRuleAgrees | CrisilPreOnboardingApi/Validation/PreOnboardingRequestValidator.cs:36-86 | the top-level rules read only top-level properties: requests agreeing on those get the same top-level failures |
| ValidationProperties.RuleIgnoresOtherSections | CrisilPreOnboardingApi/Validation/PreOnboardingRequestValidator.cs:88-148 | removing a section silences its rules and changes no other rule's result |
| ValidationProperties.DroppingSectionDropsOnlyItsFailures | CrisilPreOnboardingApi/Validation/PreOnboardingRequestValidator.cs:88-148 | removing a section removes exactly its failures from the full list and keeps every other property's failures |
| ValidationProperties.CollectEmpty | CrisilPreOnboardingApi/Validation/PreOnboardingRequestValidator.cs:33-149 | the collected list is empty exactly when every listed rule is silent |
| ValidationProperties.ValidateEmpty | CrisilPreOnboardingApi/Validation/PreOnboardingRequestValidator.cs:33-149 | the request is valid exactly when every rule is silent |
| ValidationProperties.ExternalCandidateIdPasses | CrisilPreOnboardingApi/Validation/PreOnboardingRequestValidator.cs:36-38 | the rule passes exactly when the id is non-blank and at most 50 characters |
| ValidationProperties.CrisilOfferIdPasses | CrisilPreOnboardingApi/Validation/PreOnboardingRequestValidator.cs:40-42 | the rule passes exactly when the offer id is non-blank and at most 50 characters |
| ValidationProperties.JoiningDatePasses | CrisilPreOnboardingApi/Validation/PreOnboardingRequestValidator.cs:44-45 | the rule passes exactly when a joining date is present |
| ValidationProperties.FirstNamePasses | CrisilPreOnboardingApi/Validation/PreOnboardingRequestValidator.cs:47-49 | the rule passes exactly when the first name is non-blank and at most 100 characters |
| ValidationProperties.LastNamePasses | CrisilPreOnboardingApi/Validation/PreOnboardingRequestValidator.cs:51-53 | the rule passes exactly when the last name is non-blank and at most 100 characters |
| ValidationProperties.DateOfBirthPasses | CrisilPreOnboardingApi/Validation/PreOnboardingRequestValidator.cs:55-59 | the rule passes exactly when a date of birth is present and strictly before today |
| ValidationProperties.PersonalEmailPasses | CrisilPreOnboardingApi/Validation/PreOnboardingRequestValidator.cs:61-63 | the rule passes exactly when the email is non-blank and accepted by the email check |
| ValidationProperties.MobileNumberPasses | CrisilPreOnboardingApi/Validation/PreOnboardingRequestValidator.cs:65-67 | the rule passes exactly when the mobile number is non-blank and 8-15 digits |
| ValidationProperties.JoiningStatusPasses | CrisilPreOnboardingApi/Validation/PreOnboardingRequestValidator.cs:70-73 | the rule passes exactly when the status is blank or in its set, ignoring case |
| ValidationProperties.GenderPasses | CrisilPreOnboardingApi/Validation/PreOnboardingRequestValidator.cs:75-78 | the rule passes exactly when gender is blank or in its set, ignoring case |
| ValidationProperties.NationalityPasses | CrisilPreOnboardingApi/Validation/PreOnboardingRequestValidator.cs:80-82 | the rule passes exactly when nationality is blank or at most 50 characters |
| ValidationProperties.MobileCountryCodePasses | CrisilPreOnboardingApi/Validation/PreOnboardingRequestValidator.cs:84-86 | the rule passes exactly when the country code is blank or `+` and 1-4 digits |
| ValidationProperties.AddressLine1Passes | CrisilPreOnboardingApi/Validation/PreOnboardingRequestValidator.cs:90-92 | the rule passes exactly when there is no address or line1 is non-blank and at most 200 characters |
| ValidationProperties.AddressCityPasses | CrisilPreOnboardingApi/Validation/PreOnboardingRequestValidator.cs:94-96 | the rule passes exactly when there is no address or the city is non-blank and at most 80 characters |
| ValidationProperties.AddressPostalCodePasses | CrisilPreOnboardingApi/Validation/PreOnboardingRequestValidator.cs:98-100 | the rule passes exactly when there is no address or the postal code is blank or 4-10 digits |
| ValidationProperties.JobManagerEmailPasses | CrisilPreOnboardingApi/Validation/PreOnboardingRequestValidator.cs:105-107 | the rule passes exactly when there is no job or the manager email is blank or accepted |
| ValidationProperties.JobWorkLocationTypePasses | CrisilPreOnboardingApi/Validation/PreOnboardingRequestValidator.cs:109-112 | the rule passes exactly when there is no job or the work location type is blank or in its set |
| ValidationProperties.JobEmployeeTypePasses | CrisilPreOnboardingApi/Validation/PreOnboardingRequestValidator.cs:114-117 | the rule passes exactly when there is no job or the employee type is blank or in its set |
| ValidationProperties.PayCtcAnnualInInrPasses | CrisilPreOnboardingApi/Validation/PreOnboardingRequestValidator.cs:122-124 | the rule passes exactly when there is no pay section, no CTC, or a CTC above zero |
| ValidationProperties.PayPayrollCyclePasses | CrisilPreOnboardingApi/Validation/PreOnboardingRequestValidator.cs:126-129 | the rule passes exactly when there is no pay section or the payroll cycle is blank or in its set |
| ValidationProperties.KycPanPasses | CrisilPreOnboardingApi/Validation/PreOnboardingRequestValidator.cs:134-136 | the rule passes exactly when there is no KYC section or the PAN is blank or well-formed |
| ValidationProperties.KycAadhaarLast4Passes | CrisilPreOnboardingApi/Validation/PreOnboardingRequestValidator.cs:138-140 | the rule passes exactly when there is no KYC section or aadhaar_last4 is blank or 12 digits |
| ValidationProperties.EmergencyContactPhonePasses | CrisilPreOnboardingApi/Validation/PreOnboardingRequestValidator.cs:145-147 | the rule passes exactly when there is no emergency contact or the phone is blank or 8-15 digits |
| ValidationProperties.TopLevelPasses | CrisilPreOnboardingApi/Validation/PreOnboardingRequestValidator.cs:36-86 | the top-level part of the acceptance predicate holds exactly when all twelve top-level rules are silent |
| ValidationProperties.SectionsPass | CrisilPreOnboardingApi/Validation/PreOnboardingRequestValidator.cs:88-148 | each section is absent or acceptable exactly when all its rules are silent |
| ValidationProperties.AllRulesSilentIff | CrisilPreOnboardingApi/Validation/PreOnboardingRequestValidator.cs:33-149 | every rule is silent exactly when the request satisfies the acceptance predicate |
| ValidationProperties.AcceptedIff | CrisilPreOnboardingApi/Validation/PreOnboardingRequestValidator.cs:33-149 | the validator accepts a request if and only if it satisfies the independent acceptance predicate `Acceptable` |
| ValidationProperties.TopLevelMessagesDeclared | CrisilPreOnboardingApi/Validation/PreOnboardingRequestValidator.cs:36-86 | every top-level failure pairs its property with a code that property's rule declares |
| ValidationProperties.AddressMessagesDeclared | CrisilPreOnboardingApi/Validation/PreOnboardingRequestValidator.cs:88-101 | every address failure pairs its property with a declared code |
| ValidationProperties.JobMessagesDeclared | CrisilPreOnboardingApi/Validation/PreOnboardingRequestValidator.cs:103-118 | every job failure pairs its property with a declared code |
| ValidationProperties.PayMessagesDeclared | CrisilPreOnboardingApi/Validation/PreOnboardingRequestValidator.cs:120-130 | every pay failure pairs its property with a declared code |
| ValidationProperties.KycMessagesDeclared | CrisilPreOnboardingApi/Validation/PreOnboardingRequestValidator.cs:132-141 | every KYC failure pairs its property with a declared code |
| ValidationProperties.EmergencyContactMessagesDeclared | CrisilPreOnboardingApi/Validation/PreOnboardingRequestValidator.cs:143-148 | every emergency-contact failure pairs its property with a declared code |
| ValidationProperties.RuleMessagesDeclared | CrisilPreOnboardingApi/Validation/PreOnboardingRequestValidator.cs:33-149 | every failure of any rule carries a declared (property, code) pair |
| ValidationProperties.ValidateMessagesDeclared | CrisilPreOnboardingApi/Validation/PreOnboardingRequestValidator.cs:33-149 | every failure in the full list carries a declared (property, code) pair, so it has the message its rule declares |
| ValidationProperties.CodeNameIsNotBlank | CrisilPreOnboardingApi/Controllers/PreOnboardingController.cs:39 | no rule code is blank, so the controller's INVALID fallback never applies to validator failures |
| SnakeCase.ToSnakeCase | CrisilPreOnboardingApi/Controllers/PreOnboardingController.cs:288-299 | a segment containing '_' is only lower-cased; the result never has an upper-case letter |
| SnakeCase.ToSnakeCaseLoop | CrisilPreOnboardingApi/Controllers/PreOnboardingController.cs:288-299 | the character loop builds exactly the recursive definition of the segment conversion |
| SnakeCase.SpacedHasNoUpper | CrisilPreOnboardingApi/Controllers/PreOnboardingController.cs:291-298 | the underscore-free branch lower-cases every character |
| SnakeCase.ToSnakeCaseLength | CrisilPreOnboardingApi/Controllers/PreOnboardingController.cs:290-298 | '_' branch keeps the length; otherwise the length grows by one per upper-case letter after position 0 |
| SnakeCase.SpacedLengthPrefix | CrisilPreOnboardingApi/Controllers/PreOnboardingController.cs:291-298 | the loop adds one character per upper-case letter except at position 0 |
| SnakeCase.SpacedWithoutUnderscores | CrisilPreOnboardingApi/Controllers/PreOnboardingController.cs:291-298 | deleting the inserted underscores from the loop's output gives the lower-cased input |
| SnakeCase.UnderscoreFreeRoundTrip | CrisilPreOnboardingApi/Controllers/PreOnboardingController.cs:291-298 | for a segment without '_', removing underscores from the result recovers the lower-cased segment: only underscores are inserted |
| SnakeCase.SpacedKeepsLower | CrisilPreOnboardingApi/Controllers/PreOnboardingController.cs:291-298 | a segment without capitals passes through the loop unchanged |
| SnakeCase.ToSnakeCaseIdempotent | CrisilPreOnboardingApi/Controllers/PreOnboardingController.cs:288-299 | converting a converted segment changes nothing |
| SnakeCase.ToSnakeCaseKeepsDots | CrisilPreOnboardingApi/Controllers/PreOnboardingController.cs:288-299 | segment conversion neither adds nor removes dots and never shortens |
| SnakeCase.ToSnakeCaseAt | CrisilPreOnboardingApi/Controllers/PreOnboardingController.cs:291-298 | in a segment without '_', character j lands lower-cased at position j plus the number of capitals after position 0 up to j, and an underscore precedes it exactly when it is a capital after position 0 |
| SnakeCase.SpacedAt | CrisilPreOnboardingApi/Controllers/PreOnboardingController.cs:291-298 | the character loop places each character at that position, with an underscore before it exactly when it is an inner capital |
| SnakeCase.SpacedLength | CrisilPreOnboardingApi/Controllers/PreOnboardingController.cs:291-298 | the loop's output is one character longer per inner capital |
| SnakeCase.SpacedLast | CrisilPreOnboardingApi/Controllers/PreOnboardingController.cs:296 | the loop's last character is the lower-cased last input character |
| SnakeCase.SlotStep | CrisilPreOnboardingApi/Controllers/PreOnboardingController.cs:291-298 | each next character moves one place further, two when an underscore goes before it |
| SnakeCase.SpacedNewWord | CrisilPreOnboardingApi/Controllers/PreOnboardingController.cs:291-298 | appending a word that starts with its only capital appends '_' and the lower-cased word |
| SnakeCase.TwoWordSegment | CrisilPreOnboardingApi/Controllers/PreOnboardingController.cs:288-299 | a segment of two capitalised words is their lower-cased forms joined by '_' |
| SnakeCase.Split | CrisilPreOnboardingApi/Controllers/PreOnboardingController.cs:284 | splitting on '.' gives at least one piece and no piece holds a dot |
| SnakeCase.NonEmpty | CrisilPreOnboardingApi/Controllers/PreOnboardingController.cs:284 | exactly the non-empty pieces are kept |
| SnakeCase.MapSnake | CrisilPreOnboardingApi/Controllers/PreOnboardingController.cs:285 | each segment is converted on its own, in place |
| SnakeCase.ToSnakeCasePath | CrisilPreOnboardingApi/Controllers/PreOnboardingController.cs:282-286 | the normalised path has no upper-case letter |
| SnakeCase.SplitJoin | CrisilPreOnboardingApi/Controllers/PreOnboardingController.cs:284-285 | splitting a dot-join of dot-free pieces gives the pieces back |
| SnakeCase.JoinSplit | CrisilPreOnboardingApi/Controllers/PreOnboardingController.cs:284-285 | dot-joining the pieces of a split gives the string back |
| SnakeCase.NonEmptyKeepsNonEmpty | CrisilPreOnboardingApi/Controllers/PreOnboardingController.cs:284 | dropping empty pieces leaves a list of non-empty pieces unchanged |
| SnakeCase.SegmentsOfRenamedPath | CrisilPreOnboardingApi/Controllers/PreOnboardingController.cs:282-286 | the segments of the normalised path are the converted non-empty segments of the input, in order |
| SnakeCase.MapSnakeIdempotent | CrisilPreOnboardingApi/Controllers/PreOnboardingController.cs:285 | converting every segment twice equals converting once |
| SnakeCase.ToSnakeCasePathIdempotent | CrisilPreOnboardingApi/Controllers/PreOnboardingController.cs:282-286 | normalising a normalised path changes nothing |
| SnakeCase.SpacedSingleWord | CrisilPreOnboardingApi/Controllers/PreOnboardingController.cs:291-298 | a segment with no capital after position 0 is only lower-cased by the loop |
| SnakeCase.RenamedSegmentIsLowered | CrisilPreOnboardingApi/Controllers/PreOnboardingController.cs:288-299 | a segment containing '_' or with no inner capital is only lower-cased |
| SnakeCase.RenameJoined | CrisilPreOnboardingApi/Controllers/PreOnboardingController.cs:282-286 | normalising a dot-join of non-empty dot-free segments joins their conversions |
| SnakeCase.RenameTwoWords | CrisilPreOnboardingApi/Controllers/PreOnboardingController.cs:282-286 | a two-segment property chain of underscore-style words normalises to its lower-cased segments |
| SnakeCase.RenameOneWord | CrisilPreOnboardingApi/Controllers/PreOnboardingController.cs:282-286 | a single underscore-style word normalises to its lower-case form |
| WireNames.PathsAreWireNames | CrisilPreOnboardingApi/Controllers/PreOnboardingController.cs:38 | every rule's property chain normalises to its snake-case wire name, e.g. `Address.Postal_Code` to `address.postal_code` |
| Store.EmptyIsValid | CrisilPreOnboardingApi/Migrations/20260115154252_AddAuditFields.cs:18-19 | the empty table meets the table constraints and its first identity value is still unused |
| Store.Insert | CrisilPreOnboardingApi/Data/AppDbContext.cs:18 | an insert fails as a duplicate exactly when the key pair is taken; otherwise the row is appended with the next identity value and nothing else changes |
| Store.FindById | CrisilPreOnboardingApi/Controllers/PreOnboardingController.cs:127 | lookup finds nothing exactly when no row has the id; a found row has that id and is in the table |
| Store.FindFrom | CrisilPreOnboardingApi/Controllers/PreOnboardingController.cs:127 | the first-match scan finds nothing exactly when no row has the id |
| Store.FindStored | CrisilPreOnboardingApi/Controllers/PreOnboardingController.cs:127 | in a valid table, looking up a stored row's id finds that row |
| Store.InsertIdIsFresh | CrisilPreOnboardingApi/Migrations/20260115154252_AddAuditFields.cs:18-19 | the new identity value is above every stored id and unused |
| Store.InsertPreservesValid | CrisilPreOnboardingApi/Data/AppDbContext.cs:16-18 | a successful insert keeps ids positive, distinct and below the counter, and the key pair unique |
| Store.InsertTwiceIsDuplicate | CrisilPreOnboardingApi/Migrations/20260115154252_AddAuditFields.cs:48-52 | after an insert, any row with the same key pair is rejected by the unique index |
| Store.InsertThenFind | CrisilPreOnboardingApi/Controllers/PreOnboardingController.cs:127 | the inserted row is found by its new id |
| Store.InsertKeepsRows | CrisilPreOnboardingApi/Controllers/PreOnboardingController.cs:127 | an insert does not change what an existing id finds |
| Controller.ValidateAuthHeaders | CrisilPreOnboardingApi/Controllers/PreOnboardingController.cs:204-246 | a blank header gives UNAUTHORIZED with REQUIRED on both header names; with both present, the request passes exactly when the token matches case-sensitively and the company code up to ASCII case, else INVALID on both |
| Controller.UnconfiguredTokenRejectsAll | CrisilPreOnboardingApi/Controllers/PreOnboardingController.cs:229-230 | with no expected token or company code configured, no request is authorised |
| Controller.AuthorizedIff | CrisilPreOnboardingApi/Controllers/PreOnboardingController.cs:229-230 | a request passes exactly when both headers are non-blank, the token equals the configured one exactly and the company code equals the configured one up to ASCII case |
| Controller.CompanyCaseIsIgnored | CrisilPreOnboardingApi/Controllers/PreOnboardingController.cs:230 | changing only the ASCII case of the company code keeps an authorised request authorised |
| Controller.TokenCaseMatters | CrisilPreOnboardingApi/Controllers/PreOnboardingController.cs:229 | any other token, even one differing only in case, is rejected |
| Controller.ValidationEnvelope | CrisilPreOnboardingApi/Controllers/PreOnboardingController.cs:43-49 | VALIDATION_FAILED with the fixed summary, the trace id and one error per failure |
| Controller.FieldError | CrisilPreOnboardingApi/Controllers/PreOnboardingController.cs:36-41 | each field error carries the snake-cased property chain, the rule's own code and message; rule codes are never blank, so the INVALID fallback never applies |
| Controller.DuplicateEnvelope | CrisilPreOnboardingApi/Controllers/PreOnboardingController.cs:93-103 | DUPLICATE_REQUEST with exactly two DUPLICATE errors, on external_candidate_id and crisil_offer_id |
| Controller.Truncate | CrisilPreOnboardingApi/Controllers/PreOnboardingController.cs:60 | a body up to 20000 characters is kept; a longer one keeps its first 20000 characters followed by the truncation marker |
| Controller.CaptureRawBody | CrisilPreOnboardingApi/Controllers/PreOnboardingController.cs:52-61 | the raw body is captured exactly when the content type contains application/json, ignoring ASCII case, and is then truncated |
| Controller.SerializeSection | CrisilPreOnboardingApi/Controllers/PreOnboardingController.cs:77-81 | a section's JSON column is null exactly when the section is absent |
| Controller.DeserializeSection | CrisilPreOnboardingApi/Controllers/PreOnboardingController.cs:250-255 | a blank column reads as an absent section; otherwise the deserialiser's result, failure meaning absent |
| Controller.SectionRoundTrip | CrisilPreOnboardingApi/Controllers/PreOnboardingController.cs:250-255 | with a faithful JSON mapping, reading back a written section gives the section, and absent stays absent |
| Controller.AcceptedIsComplete | CrisilPreOnboardingApi/Controllers/PreOnboardingController.cs:63-76 | a request the validator accepts has every value the entity construction dereferences |
| Controller.BuildEntity | CrisilPreOnboardingApi/Controllers/PreOnboardingController.cs:63-84 | each JSON column is null iff its section is absent; a new row is Active with no update stamp |
| Controller.NewEntity | CrisilPreOnboardingApi/Controllers/PreOnboardingController.cs:63-84 | the row copies every scalar the request carries, is stamped with the clock, records the company header as creator, captures the body only for JSON content, and starts Active with no update |
| Controller.Create | CrisilPreOnboardingApi/Controllers/PreOnboardingController.cs:28-118 | every outcome other than a save leaves the table unchanged |
| Controller.Persist | CrisilPreOnboardingApi/Controllers/PreOnboardingController.cs:86-104 | the save conflicts exactly when the key pair is taken, and then answers DUPLICATE_REQUEST and leaves the table as it was |
| Controller.CreateReachesPersist | CrisilPreOnboardingApi/Controllers/PreOnboardingController.cs:28-90 | an authorised, valid request goes on to the save |
| Controller.CreateDecision | CrisilPreOnboardingApi/Controllers/PreOnboardingController.cs:28-118 | the outcome is 401 iff the headers fail, 400 iff they pass and the request is not acceptable, 409 iff both pass and the key pair is taken, and a save otherwise |
| Controller.RejectionListsEveryFailure | CrisilPreOnboardingApi/Controllers/PreOnboardingController.cs:33-50 | a 400 lists every validator failure once, in order, with the snake-case wire name, the rule's code and the rule's declared message |
| Controller.ConflictNamesTheKeys | CrisilPreOnboardingApi/Controllers/PreOnboardingController.cs:91-104 | a 409 names both key fields with DUPLICATE and carries the trace id |
| Controller.ConflictIsDuplicate | CrisilPreOnboardingApi/Controllers/PreOnboardingController.cs:91-104 | every 409 is the fixed duplicate envelope |
| Controller.SaveAddsOneFreshRow | CrisilPreOnboardingApi/Controllers/PreOnboardingController.cs:86-117 | a save appends exactly one row with an id above all stored ids, keeps the table valid, and echoes that id and both keys |
| Controller.CreatePreservesValid | CrisilPreOnboardingApi/Controllers/PreOnboardingController.cs:28-118 | whatever the outcome, the table constraints still hold |
| Controller.CreateTwiceConflicts | CrisilPreOnboardingApi/Controllers/PreOnboardingController.cs:86-104 | sending the same saved request again gives 409 |
| Controller.ToResponse | CrisilPreOnboardingApi/Controllers/PreOnboardingController.cs:248-280 | every stored column is copied to the response unchanged, and each section is the guarded read-back of its JSON column, so a blank column reads as an absent section |
| Controller.GetById | CrisilPreOnboardingApi/Controllers/PreOnboardingController.cs:121-146 | 401 iff the headers fail; 404 with the single NOT_FOUND error and the trace id iff no row has the id; otherwise SUCCESS with the trace id and the mapped row the lookup finds |
| Controller.GetByIdReadsEveryRow | CrisilPreOnboardingApi/Controllers/PreOnboardingController.cs:127-145 | an authorised read of any stored row's id returns that row, mapped, under SUCCESS |
| Controller.SavedRecordReadsBack | CrisilPreOnboardingApi/Controllers/PreOnboardingController.cs:248-280 | with faithful JSON mappings, reading a just-saved record back by its id returns every field of the request, sections included, and the creation time |
| Controller.SearchEndpoint | CrisilPreOnboardingApi/Controllers/PreOnboardingController.cs:151-202 | 401 iff the headers fail; otherwise SUCCESS with the trace id, the search's page, page size and total, and its rows mapped one-to-one in order |
| Search.ClampPage | CrisilPreOnboardingApi/Controllers/PreOnboardingController.cs:163 | the page is at least 1 and a page of at least 1 is kept |
| Search.ClampPageSize | CrisilPreOnboardingApi/Controllers/PreOnboardingController.cs:164-165 | the size ends in [1, 200]: below 1 becomes 20, above 200 becomes 200, anything else is kept |
| Search.Filter | CrisilPreOnboardingApi/Controllers/PreOnboardingController.cs:167-179 | a row is kept exactly when it matches every supplied filter: equal ids, joining date within inclusive bounds; blank ids and absent dates filter nothing |
| Search.InsertDesc | CrisilPreOnboardingApi/Controllers/PreOnboardingController.cs:184 | placing one row into the ordering adds exactly that row |
| Search.SortDesc | CrisilPreOnboardingApi/Controllers/PreOnboardingController.cs:184 | ordering by id is a permutation of the rows |
| Search.InsertDescKeepsOrder | CrisilPreOnboardingApi/Controllers/PreOnboardingController.cs:184 | placing a row into a descending list keeps it descending |
| Search.InsertDescKeepsDistinct | CrisilPreOnboardingApi/Controllers/PreOnboardingController.cs:184 | placing a row with a new id keeps ids distinct |
| Search.SortDescIsDescending | CrisilPreOnboardingApi/Controllers/PreOnboardingController.cs:184 | the ordering is by descending id |
| Search.SortDescKeepsDistinct | CrisilPreOnboardingApi/Controllers/PreOnboardingController.cs:184 | ordering keeps ids distinct |
| Search.FilterKeepsDistinct | CrisilPreOnboardingApi/Controllers/PreOnboardingController.cs:167-179 | filtering keeps ids distinct |
| Search.KeyQueryMatchesAtMostOne | CrisilPreOnboardingApi/Controllers/PreOnboardingController.cs:169-173 | with both id filters set, at most one row of a valid table matches, because the key pair is unique |
| Search.Window | CrisilPreOnboardingApi/Controllers/PreOnboardingController.cs:185-186 | skip/take yields at most `take` rows, the consecutive rows starting at `skip` |
| Search.OffsetsApart | CrisilPreOnboardingApi/Controllers/PreOnboardingController.cs:185 | later pages start at least a full page further on |
| Search.PageOf | CrisilPreOnboardingApi/Controllers/PreOnboardingController.cs:185 | every position falls inside the window of some page |
| Search.SearchRows | CrisilPreOnboardingApi/Controllers/PreOnboardingController.cs:163-187 | clamped paging values, at most pageSize items, total equal to the number of matches, every item a matching row |
| Search.TotalIgnoresPaging | CrisilPreOnboardingApi/Controllers/PreOnboardingController.cs:181 | the total does not depend on page or pageSize |
| Search.FilterIgnoresPaging | CrisilPreOnboardingApi/Controllers/PreOnboardingController.cs:167-179 | the filter does not depend on page or pageSize |
| Search.ItemsAreWindow | CrisilPreOnboardingApi/Controllers/PreOnboardingController.cs:183-187 | the items are the matches in descending id, skipping (page-1)*pageSize and taking pageSize |
| Search.PageAt | CrisilPreOnboardingApi/Controllers/PreOnboardingController.cs:183-187 | an in-range page request yields the window at that page's offset |
| Search.ItemsStrictlyDescending | CrisilPreOnboardingApi/Controllers/PreOnboardingController.cs:183-187 | on a valid table the items have strictly descending ids |
| Search.OrderedStrict | CrisilPreOnboardingApi/Controllers/PreOnboardingController.cs:183-184 | on a valid table the ordered matches have strictly descending ids |
| Search.PagesAreDisjoint | CrisilPreOnboardingApi/Controllers/PreOnboardingController.cs:183-187 | two different pages of the same size share no item |
| Search.EveryMatchIsOnAPage | CrisilPreOnboardingApi/Controllers/PreOnboardingController.cs:183-187 | every matching row appears on some page |
| DateParser.FormatError | CrisilPreOnboardingApi/Utilities/DateParser.cs:18 | the failure text names the field and the `dd-MM-yyyy` pattern |
| DateParser.ShapeFollowsPattern | CrisilPreOnboardingApi/Utilities/DateParser.cs:7 | the accepted shape is the `dd-MM-yyyy` pattern read literally: one digit per letter, '-' for itself |
| DateParser.TryParseExact | CrisilPreOnboardingApi/Utilities/DateParser.cs:11-16 | parsing succeeds exactly on two-digit day, two-digit month, four-digit year joined by '-', denoting a real calendar date |
| DateParser.ParseRequired | CrisilPreOnboardingApi/Utilities/DateParser.cs:9-22 | a parsed date is valid and formats back to the input; a failure carries the field's format message; wrong-length input fails |
| DateParser.ParseOptional | CrisilPreOnboardingApi/Utilities/DateParser.cs:24-40 | null or whitespace gives no date and no error; otherwise the same result as the required parser |
| DateParser.Format | CrisilPreOnboardingApi/Utilities/DateParser.cs:7 | formatting a valid date gives text of the accepted shape |
| DateParser.FieldsFormat | CrisilPreOnboardingApi/Utilities/DateParser.cs:7 | a well-shaped valid date text is the formatting of the date it denotes |
| DateParser.FormatThenParse | CrisilPreOnboardingApi/Utilities/DateParser.cs:7-22 | parsing a formatted valid date gives the date back |
| DateParser.ParseSucceedsIff | CrisilPreOnboardingApi/Utilities/DateParser.cs:9-22 | parsing succeeds exactly on the formattings of valid dates |
| DateParser.EmptyIsRejected | CrisilPreOnboardingApi/Utilities/DateParser.cs:9-22 | the required parser has no blank shortcut: the empty string fails |
| BindingErrors.BindingMessage | CrisilPreOnboardingApi/Program.cs:52 | the message is never blank, and a non-blank message is kept |
| BindingErrors.EntryErrors | CrisilPreOnboardingApi/Program.cs:47-53 | an entry without errors contributes nothing, otherwise one field error per error |
| BindingErrors.FlattenEmptyIff | CrisilPreOnboardingApi/Program.cs:48-50 | the field-error list is empty exactly when no entry has an error |
| BindingErrors.BindingEnvelope | CrisilPreOnboardingApi/Program.cs:56-62 | always VALIDATION_FAILED with the fixed summary and the given trace id |
| BindingErrors.WithErrors | CrisilPreOnboardingApi/Program.cs:47 | exactly the entries that have at least one error are kept |
| BindingErrors.OneFieldErrorPerError | CrisilPreOnboardingApi/Program.cs:47-54 | the envelope lists one field error per recorded error |
| BindingErrors.FlattenConcat | CrisilPreOnboardingApi/Program.cs:48-53 | field errors come out entry after entry, in entry order |
| BindingErrors.OnlyEntriesWithErrorsCount | CrisilPreOnboardingApi/Program.cs:47 | entries without errors can be dropped without changing the list |
| BindingErrors.FieldErrorsShape | CrisilPreOnboardingApi/Program.cs:47-53 | every field error has code INVALID, a non-blank message and the raw key of an entry with errors |
| BindingErrors.MessageKept | CrisilPreOnboardingApi/Program.cs:49-52 | each error keeps the raw key and its own message, or "Invalid value." when the message is blank |
| Scenarios.PhoneNumberExamples | CrisilPreOnboardingApi/Validation/PreOnboardingRequestValidator.cs:67 | eight digits match, one trailing newline is tolerated by `$`, two are not, seven digits and a leading `+` fail |
| Scenarios.PanExamples | CrisilPreOnboardingApi/Validation/PreOnboardingRequestValidator.cs:135 | `ABCDE1234F` matches; its lower-case form and short text do not |
| Scenarios.MissingEmailIsRequiredOnly | CrisilPreOnboardingApi/Validation/PreOnboardingRequestValidator.cs:61-63 | a null email gives REQUIRED only, because the email check passes on null |
| Scenarios.BlankEmailFailsTwice | CrisilPreOnboardingApi/Validation/PreOnboardingRequestValidator.cs:61-63 | a whitespace email the email check rejects gives REQUIRED then INVALID_EMAIL: every step of a rule runs |
| Scenarios.LowerCasePanIsRejected | CrisilPreOnboardingApi/Validation/PreOnboardingRequestValidator.cs:134-136 | a lower-case PAN gives INVALID_PAN: the pattern is case-sensitive |
| Scenarios.LeapDayParses | CrisilPreOnboardingApi/Utilities/DateParser.cs:9-22 | 29-02-2024 parses to 29 February 2024 |
| Scenarios.LeapDayRejectedInCommonYear | CrisilPreOnboardingApi/Utilities/DateParser.cs:9-22 | 29-02-2023 fails with the format message |
| Scenarios.LayoutExamples | CrisilPreOnboardingApi/Utilities/DateParser.cs:7-40 | ISO layout and trailing spaces fail; null and whitespace are "no date" for the optional parser |
| Scenarios.BindingExample | CrisilPreOnboardingApi/Program.cs:47-53 | a key with a blank and a non-blank error gives two INVALID errors under the raw key; an entry without a value gives none |
| Scenarios.CamelCaseSegment | CrisilPreOnboardingApi/Controllers/PreOnboardingController.cs:288-299 | `EmergencyContact` becomes `emergency_contact` |

## Left out

- ASP.NET Core plumbing is not modelled: routing, action results, status codes as HTTP, header collections and request-body buffering (`PreOnboardingController.cs:54-59`). A request is reduced to a first-value header lookup, the content type, the body text and the trace id.
- The framework decides which 400 path fires: automatic model validation, the binding-error factory, or the controller's own validator call. The two mappers are modelled as separate functions, and Create receives an already-bound request.
- The logging and exception-handling middleware is not part of this model.
- EF Core and SQL Server are reduced to a sequence of rows plus the identity counter. Not modelled:
  - transactions and concurrent inserts;
  - database collation, which may make filter equality and the unique index on the key pair case- or trailing-space-insensitive. `Store.KeyTaken` compares exactly, so under such a collation the index at `AppDbContext.cs:18` would refuse `E1` after `e1` with a 409, where the model inserts;
  - identity values consumed by a failed insert.
- Controller.Persist: only the duplicate-key cause of `DbUpdateException` is modelled. Column-length overflows, such as an email over 150 or a mobile number over 15 characters, are storage errors the model does not produce.
- System.Text.Json is not modelled: each section's mapping is a `Codec` parameter, and the read-back lemmas assume `Faithful`.
- FluentValidation's email check is a parameter, and its regex engine is replaced by character predicates. `\d` and upper-case letters are ASCII only. Lengths count characters rather than UTF-16 code units.
- Every `OrdinalIgnoreCase` comparison is modelled with ASCII-only case folding (`Text.EqualsIgnoreCase`), where .NET also folds non-ASCII letters. This covers the enumerated-value sets (`PreOnboardingRequestValidator.cs:8-31`), the company-code header check in `Controller.CredentialsMatch` and `Controller.ValidateAuthHeaders` (`PreOnboardingController.cs:230`), and the content-type test in `Controller.CaptureRawBody` (`PreOnboardingController.cs:54`). So an expected company code `ÉCOLE` with header `école` is authorised by the code but answered 401 by the model.
- Controller.Truncate: the 20000 limit counts characters, where `PreOnboardingController.cs:60` measures and slices UTF-16 code units. A body containing characters outside the Basic Multilingual Plane is cut at a different point in the code, possibly inside a surrogate pair.
- `DateTime.UtcNow` is a parameter: the validator's `today` and the row's creation time.
- The `(page - 1) * pageSize` offset uses unbounded integers, so 32-bit overflow for huge page numbers is not modelled.
- The C# `decimal` CTC is an exact `real`.
- The row's `CreatedBy` is taken from the company header as read. The column's 100-character limit is not modelled.
- `DateParser` is modelled on its own because the controller does not call it. Its calendar check covers the Gregorian years 1-9999.
- Validation.Message: the messages are given only for the (property, code) pairs the rules declare. Any other pair gets the empty text, and the model proves such pairs never occur.
- Startup wiring (JSON options, Swagger, dependency injection, the connection string) is not modelled.
