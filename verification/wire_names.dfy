/** The names under which the controller reports validation failures: each
    rule's property chain passed through the snake-case renamer. */
module WireNames {
  import opened Text
  import opened SnakeCase
  import opened Validation

  /** The field name a client sees for a failure of the rule for `f`. */
  function WireName(f: Field): string {
    match f
    case ExternalCandidateId => "external_candidate_id"
    case CrisilOfferId => "crisil_offer_id"
    case JoiningDate => "joining_date"
    case FirstName => "first_name"
    case LastName => "last_name"
    case DateOfBirth => "date_of_birth"
    case PersonalEmail => "personal_email"
    case MobileNumber => "mobile_number"
    case JoiningStatus => "joining_status"
    case Gender => "gender"
    case Nationality => "nationality"
    case MobileCountryCode => "mobile_country_code"
    case AddressLine1 => "address.line1"
    case AddressCity => "address.city"
    case AddressPostalCode => "address.postal_code"
    case JobManagerEmail => "job.manager_email"
    case JobWorkLocationType => "job.work_location_type"
    case JobEmployeeType => "job.employee_type"
    case PayCtcAnnualInInr => "pay.ctc_annual_in_inr"
    case PayPayrollCycle => "pay.payroll_cycle"
    case KycPan => "kyc.pan"
    case KycAadhaarLast4 => "kyc.aadhaar_last4"
    case EmergencyContactPhone => "emergency_contact.phone"
  }

  /** A segment the renamer only lower-cases: non-empty, without dots, and
      either already holding an underscore or a single capitalised word. */
  predicate Word(s: string) {
    s != "" && '.' !in s && ('_' in s || SingleWord(s))
  }

  lemma OneWordWire(f: Field, a: string)
    requires Word(a)
    requires PropertyPath(f) == a && LowerAll(a) == WireName(f)
    ensures ToSnakeCasePath(PropertyPath(f)) == WireName(f)
  {
    RenameOneWord(a);
  }

  lemma TwoWordWire(f: Field, a: string, b: string)
    requires Word(a) && Word(b)
    requires PropertyPath(f) == a + "." + b && LowerAll(a) + "." + LowerAll(b) == WireName(f)
    ensures ToSnakeCasePath(PropertyPath(f)) == WireName(f)
  {
    RenameTwoWords(a, b);
  }

  lemma ExternalCandidateIdWords()
    ensures Word("External_Candidate_Id")
  {
  }

  lemma ExternalCandidateIdPath()
    ensures "External_Candidate_Id" == PropertyPath(ExternalCandidateId)
  {
  }

  lemma ExternalCandidateIdLowered()
    ensures LowerAll("External_Candidate_Id") == WireName(ExternalCandidateId)
  {
  }

  lemma ExternalCandidateIdWire()
    ensures ToSnakeCasePath(PropertyPath(ExternalCandidateId)) == WireName(ExternalCandidateId)
  {
    ExternalCandidateIdWords();
    ExternalCandidateIdPath();
    ExternalCandidateIdLowered();
    OneWordWire(ExternalCandidateId, "External_Candidate_Id");
  }

  lemma CrisilOfferIdWords()
    ensures Word("Crisil_Offer_Id")
  {
  }

  lemma CrisilOfferIdPath()
    ensures "Crisil_Offer_Id" == PropertyPath(CrisilOfferId)
  {
  }

  lemma CrisilOfferIdLowered()
    ensures LowerAll("Crisil_Offer_Id") == WireName(CrisilOfferId)
  {
  }

  lemma CrisilOfferIdWire()
    ensures ToSnakeCasePath(PropertyPath(CrisilOfferId)) == WireName(CrisilOfferId)
  {
    CrisilOfferIdWords();
    CrisilOfferIdPath();
    CrisilOfferIdLowered();
    OneWordWire(CrisilOfferId, "Crisil_Offer_Id");
  }

  lemma JoiningDateWords()
    ensures Word("Joining_Date")
  {
  }

  lemma JoiningDatePath()
    ensures "Joining_Date" == PropertyPath(JoiningDate)
  {
  }

  lemma JoiningDateLowered()
    ensures LowerAll("Joining_Date") == WireName(JoiningDate)
  {
  }

  lemma JoiningDateWire()
    ensures ToSnakeCasePath(PropertyPath(JoiningDate)) == WireName(JoiningDate)
  {
    JoiningDateWords();
    JoiningDatePath();
    JoiningDateLowered();
    OneWordWire(JoiningDate, "Joining_Date");
  }

  lemma FirstNameWords()
    ensures Word("First_Name")
  {
  }

  lemma FirstNamePath()
    ensures "First_Name" == PropertyPath(FirstName)
  {
  }

  lemma FirstNameLowered()
    ensures LowerAll("First_Name") == WireName(FirstName)
  {
  }

  lemma FirstNameWire()
    ensures ToSnakeCasePath(PropertyPath(FirstName)) == WireName(FirstName)
  {
    FirstNameWords();
    FirstNamePath();
    FirstNameLowered();
    OneWordWire(FirstName, "First_Name");
  }

  lemma LastNameWords()
    ensures Word("Last_Name")
  {
  }

  lemma LastNamePath()
    ensures "Last_Name" == PropertyPath(LastName)
  {
  }

  lemma LastNameLowered()
    ensures LowerAll("Last_Name") == WireName(LastName)
  {
  }

  lemma LastNameWire()
    ensures ToSnakeCasePath(PropertyPath(LastName)) == WireName(LastName)
  {
    LastNameWords();
    LastNamePath();
    LastNameLowered();
    OneWordWire(LastName, "Last_Name");
  }

  lemma DateOfBirthWords()
    ensures Word("Date_Of_Birth")
  {
  }

  lemma DateOfBirthPath()
    ensures "Date_Of_Birth" == PropertyPath(DateOfBirth)
  {
  }

  lemma DateOfBirthLowered()
    ensures LowerAll("Date_Of_Birth") == WireName(DateOfBirth)
  {
  }

  lemma DateOfBirthWire()
    ensures ToSnakeCasePath(PropertyPath(DateOfBirth)) == WireName(DateOfBirth)
  {
    DateOfBirthWords();
    DateOfBirthPath();
    DateOfBirthLowered();
    OneWordWire(DateOfBirth, "Date_Of_Birth");
  }

  lemma PersonalEmailWords()
    ensures Word("Personal_Email")
  {
  }

  lemma PersonalEmailPath()
    ensures "Personal_Email" == PropertyPath(PersonalEmail)
  {
  }

  lemma PersonalEmailLowered()
    ensures LowerAll("Personal_Email") == WireName(PersonalEmail)
  {
  }

  lemma PersonalEmailWire()
    ensures ToSnakeCasePath(PropertyPath(PersonalEmail)) == WireName(PersonalEmail)
  {
    PersonalEmailWords();
    PersonalEmailPath();
    PersonalEmailLowered();
    OneWordWire(PersonalEmail, "Personal_Email");
  }

  lemma MobileNumberWords()
    ensures Word("Mobile_Number")
  {
  }

  lemma MobileNumberPath()
    ensures "Mobile_Number" == PropertyPath(MobileNumber)
  {
  }

  lemma MobileNumberLowered()
    ensures LowerAll("Mobile_Number") == WireName(MobileNumber)
  {
  }

  lemma MobileNumberWire()
    ensures ToSnakeCasePath(PropertyPath(MobileNumber)) == WireName(MobileNumber)
  {
    MobileNumberWords();
    MobileNumberPath();
    MobileNumberLowered();
    OneWordWire(MobileNumber, "Mobile_Number");
  }

  lemma JoiningStatusWords()
    ensures Word("Joining_Status")
  {
  }

  lemma JoiningStatusPath()
    ensures "Joining_Status" == PropertyPath(JoiningStatus)
  {
  }

  lemma JoiningStatusLowered()
    ensures LowerAll("Joining_Status") == WireName(JoiningStatus)
  {
  }

  lemma JoiningStatusWire()
    ensures ToSnakeCasePath(PropertyPath(JoiningStatus)) == WireName(JoiningStatus)
  {
    JoiningStatusWords();
    JoiningStatusPath();
    JoiningStatusLowered();
    OneWordWire(JoiningStatus, "Joining_Status");
  }

  lemma GenderWords()
    ensures Word("Gender")
  {
  }

  lemma GenderPath()
    ensures "Gender" == PropertyPath(Gender)
  {
  }

  lemma GenderLowered()
    ensures LowerAll("Gender") == WireName(Gender)
  {
  }

  lemma GenderWire()
    ensures ToSnakeCasePath(PropertyPath(Gender)) == WireName(Gender)
  {
    GenderWords();
    GenderPath();
    GenderLowered();
    OneWordWire(Gender, "Gender");
  }

  lemma NationalityWords()
    ensures Word("Nationality")
  {
  }

  lemma NationalityPath()
    ensures "Nationality" == PropertyPath(Nationality)
  {
  }

  lemma NationalityLowered()
    ensures LowerAll("Nationality") == WireName(Nationality)
  {
  }

  lemma NationalityWire()
    ensures ToSnakeCasePath(PropertyPath(Nationality)) == WireName(Nationality)
  {
    NationalityWords();
    NationalityPath();
    NationalityLowered();
    OneWordWire(Nationality, "Nationality");
  }

  lemma MobileCountryCodeWords()
    ensures Word("Mobile_Country_Code")
  {
  }

  lemma MobileCountryCodePath()
    ensures "Mobile_Country_Code" == PropertyPath(MobileCountryCode)
  {
  }

  lemma MobileCountryCodeLowered()
    ensures LowerAll("Mobile_Country_Code") == WireName(MobileCountryCode)
  {
  }

  lemma MobileCountryCodeWire()
    ensures ToSnakeCasePath(PropertyPath(MobileCountryCode)) == WireName(MobileCountryCode)
  {
    MobileCountryCodeWords();
    MobileCountryCodePath();
    MobileCountryCodeLowered();
    OneWordWire(MobileCountryCode, "Mobile_Country_Code");
  }

  lemma AddressLine1Words()
    ensures Word("Address") && Word("Line1")
  {
  }

  lemma AddressLine1Path()
    ensures "Address" + "." + "Line1" == PropertyPath(AddressLine1)
  {
  }

  lemma AddressLine1Lowered()
    ensures LowerAll("Address") + "." + LowerAll("Line1") == WireName(AddressLine1)
  {
  }

  lemma AddressLine1Wire()
    ensures ToSnakeCasePath(PropertyPath(AddressLine1)) == WireName(AddressLine1)
  {
    AddressLine1Words();
    AddressLine1Path();
    AddressLine1Lowered();
    TwoWordWire(AddressLine1, "Address", "Line1");
  }

  lemma AddressCityWords()
    ensures Word("Address") && Word("City")
  {
  }

  lemma AddressCityPath()
    ensures "Address" + "." + "City" == PropertyPath(AddressCity)
  {
  }

  lemma AddressCityLowered()
    ensures LowerAll("Address") + "." + LowerAll("City") == WireName(AddressCity)
  {
  }

  lemma AddressCityWire()
    ensures ToSnakeCasePath(PropertyPath(AddressCity)) == WireName(AddressCity)
  {
    AddressCityWords();
    AddressCityPath();
    AddressCityLowered();
    TwoWordWire(AddressCity, "Address", "City");
  }

  lemma AddressPostalCodeWords()
    ensures Word("Address") && Word("Postal_Code")
  {
  }

  lemma AddressPostalCodePath()
    ensures "Address" + "." + "Postal_Code" == PropertyPath(AddressPostalCode)
  {
  }

  lemma AddressPostalCodeLowered()
    ensures LowerAll("Address") + "." + LowerAll("Postal_Code") == WireName(AddressPostalCode)
  {
  }

  lemma AddressPostalCodeWire()
    ensures ToSnakeCasePath(PropertyPath(AddressPostalCode)) == WireName(AddressPostalCode)
  {
    AddressPostalCodeWords();
    AddressPostalCodePath();
    AddressPostalCodeLowered();
    TwoWordWire(AddressPostalCode, "Address", "Postal_Code");
  }

  lemma JobManagerEmailWords()
    ensures Word("Job") && Word("Manager_Email")
  {
  }

  lemma JobManagerEmailPath()
    ensures "Job" + "." + "Manager_Email" == PropertyPath(JobManagerEmail)
  {
  }

  lemma JobManagerEmailLowered()
    ensures LowerAll("Job") + "." + LowerAll("Manager_Email") == WireName(JobManagerEmail)
  {
  }

  lemma JobManagerEmailWire()
    ensures ToSnakeCasePath(PropertyPath(JobManagerEmail)) == WireName(JobManagerEmail)
  {
    JobManagerEmailWords();
    JobManagerEmailPath();
    JobManagerEmailLowered();
    TwoWordWire(JobManagerEmail, "Job", "Manager_Email");
  }

  lemma JobWorkLocationTypeWords()
    ensures Word("Job") && Word("Work_Location_Type")
  {
  }

  lemma JobWorkLocationTypePath()
    ensures "Job" + "." + "Work_Location_Type" == PropertyPath(JobWorkLocationType)
  {
  }

  lemma JobWorkLocationTypeLowered()
    ensures LowerAll("Job") + "." + LowerAll("Work_Location_Type") == WireName(JobWorkLocationType)
  {
  }

  lemma JobWorkLocationTypeWire()
    ensures ToSnakeCasePath(PropertyPath(JobWorkLocationType)) == WireName(JobWorkLocationType)
  {
    JobWorkLocationTypeWords();
    JobWorkLocationTypePath();
    JobWorkLocationTypeLowered();
    TwoWordWire(JobWorkLocationType, "Job", "Work_Location_Type");
  }

  lemma JobEmployeeTypeWords()
    ensures Word("Job") && Word("Employee_Type")
  {
  }

  lemma JobEmployeeTypePath()
    ensures "Job" + "." + "Employee_Type" == PropertyPath(JobEmployeeType)
  {
  }

  lemma JobEmployeeTypeLowered()
    ensures LowerAll("Job") + "." + LowerAll("Employee_Type") == WireName(JobEmployeeType)
  {
  }

  lemma JobEmployeeTypeWire()
    ensures ToSnakeCasePath(PropertyPath(JobEmployeeType)) == WireName(JobEmployeeType)
  {
    JobEmployeeTypeWords();
    JobEmployeeTypePath();
    JobEmployeeTypeLowered();
    TwoWordWire(JobEmployeeType, "Job", "Employee_Type");
  }

  lemma PayCtcAnnualInInrWords()
    ensures Word("Pay") && Word("Ctc_Annual_In_Inr")
  {
  }

  lemma PayCtcAnnualInInrPath()
    ensures "Pay" + "." + "Ctc_Annual_In_Inr" == PropertyPath(PayCtcAnnualInInr)
  {
  }

  lemma PayCtcAnnualInInrLowered()
    ensures LowerAll("Pay") + "." + LowerAll("Ctc_Annual_In_Inr") == WireName(PayCtcAnnualInInr)
  {
  }

  lemma PayCtcAnnualInInrWire()
    ensures ToSnakeCasePath(PropertyPath(PayCtcAnnualInInr)) == WireName(PayCtcAnnualInInr)
  {
    PayCtcAnnualInInrWords();
    PayCtcAnnualInInrPath();
    PayCtcAnnualInInrLowered();
    TwoWordWire(PayCtcAnnualInInr, "Pay", "Ctc_Annual_In_Inr");
  }

  lemma PayPayrollCycleWords()
    ensures Word("Pay") && Word("Payroll_Cycle")
  {
  }

  lemma PayPayrollCyclePath()
    ensures "Pay" + "." + "Payroll_Cycle" == PropertyPath(PayPayrollCycle)
  {
  }

  lemma PayPayrollCycleLowered()
    ensures LowerAll("Pay") + "." + LowerAll("Payroll_Cycle") == WireName(PayPayrollCycle)
  {
  }

  lemma PayPayrollCycleWire()
    ensures ToSnakeCasePath(PropertyPath(PayPayrollCycle)) == WireName(PayPayrollCycle)
  {
    PayPayrollCycleWords();
    PayPayrollCyclePath();
    PayPayrollCycleLowered();
    TwoWordWire(PayPayrollCycle, "Pay", "Payroll_Cycle");
  }

  lemma KycPanWords()
    ensures Word("Kyc") && Word("Pan")
  {
  }

  lemma KycPanPath()
    ensures "Kyc" + "." + "Pan" == PropertyPath(KycPan)
  {
  }

  lemma KycPanLowered()
    ensures LowerAll("Kyc") + "." + LowerAll("Pan") == WireName(KycPan)
  {
  }

  lemma KycPanWire()
    ensures ToSnakeCasePath(PropertyPath(KycPan)) == WireName(KycPan)
  {
    KycPanWords();
    KycPanPath();
    KycPanLowered();
    TwoWordWire(KycPan, "Kyc", "Pan");
  }

  lemma KycAadhaarLast4Words()
    ensures Word("Kyc") && Word("Aadhaar_Last4")
  {
  }

  lemma KycAadhaarLast4Path()
    ensures "Kyc" + "." + "Aadhaar_Last4" == PropertyPath(KycAadhaarLast4)
  {
  }

  lemma KycAadhaarLast4Lowered()
    ensures LowerAll("Kyc") + "." + LowerAll("Aadhaar_Last4") == WireName(KycAadhaarLast4)
  {
  }

  lemma KycAadhaarLast4Wire()
    ensures ToSnakeCasePath(PropertyPath(KycAadhaarLast4)) == WireName(KycAadhaarLast4)
  {
    KycAadhaarLast4Words();
    KycAadhaarLast4Path();
    KycAadhaarLast4Lowered();
    TwoWordWire(KycAadhaarLast4, "Kyc", "Aadhaar_Last4");
  }

  lemma EmergencyContactPhoneWords()
    ensures Word("Emergency_Contact") && Word("Phone")
  {
  }

  lemma EmergencyContactPhonePath()
    ensures "Emergency_Contact" + "." + "Phone" == PropertyPath(EmergencyContactPhone)
  {
  }

  lemma EmergencyContactPhoneLowered()
    ensures LowerAll("Emergency_Contact") + "." + LowerAll("Phone") == WireName(EmergencyContactPhone)
  {
  }

  lemma EmergencyContactPhoneWire()
    ensures ToSnakeCasePath(PropertyPath(EmergencyContactPhone)) == WireName(EmergencyContactPhone)
  {
    EmergencyContactPhoneWords();
    EmergencyContactPhonePath();
    EmergencyContactPhoneLowered();
    TwoWordWire(EmergencyContactPhone, "Emergency_Contact", "Phone");
  }

  /** Every rule's property chain renames to its wire name: each segment is
      lower-cased and no underscore is added. */
  lemma PathsAreWireNames(f: Field)
    ensures ToSnakeCasePath(PropertyPath(f)) == WireName(f)
  {
    match f
    case ExternalCandidateId => ExternalCandidateIdWire();
    case CrisilOfferId => CrisilOfferIdWire();
    case JoiningDate => JoiningDateWire();
    case FirstName => FirstNameWire();
    case LastName => LastNameWire();
    case DateOfBirth => DateOfBirthWire();
    case PersonalEmail => PersonalEmailWire();
    case MobileNumber => MobileNumberWire();
    case JoiningStatus => JoiningStatusWire();
    case Gender => GenderWire();
    case Nationality => NationalityWire();
    case MobileCountryCode => MobileCountryCodeWire();
    case AddressLine1 => AddressLine1Wire();
    case AddressCity => AddressCityWire();
    case AddressPostalCode => AddressPostalCodeWire();
    case JobManagerEmail => JobManagerEmailWire();
    case JobWorkLocationType => JobWorkLocationTypeWire();
    case JobEmployeeType => JobEmployeeTypeWire();
    case PayCtcAnnualInInr => PayCtcAnnualInInrWire();
    case PayPayrollCycle => PayPayrollCycleWire();
    case KycPan => KycPanWire();
    case KycAadhaarLast4 => KycAadhaarLast4Wire();
    case EmergencyContactPhone => EmergencyContactPhoneWire();
  }
}
