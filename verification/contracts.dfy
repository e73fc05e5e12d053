/** The wire shapes: the pre-onboarding request with its five optional nested
    sections, the read-side response, and the uniform error envelope. Every
    request scalar is nullable; the two dates are carried already bound to
    `DateOnly`, as the validator and the controller use them. */
module Contracts {
  import opened Wrappers
  import opened Dates

  datatype AddressDto = AddressDto(
    line1: Option<string>,
    line2: Option<string>,
    city: Option<string>,
    state: Option<string>,
    postalCode: Option<string>,
    country: Option<string>)

  datatype JobDto = JobDto(
    designationTitle: Option<string>,
    departmentCode: Option<string>,
    costCenterCode: Option<string>,
    grade: Option<string>,
    locationCode: Option<string>,
    workLocationType: Option<string>,
    managerEmployeeId: Option<string>,
    managerEmail: Option<string>,
    employeeType: Option<string>,
    probationEndDate: Option<string>)

  /** The annual CTC is a C# `decimal`, carried here as an exact `real`. */
  datatype PayDto = PayDto(
    ctcAnnualInInr: Option<real>,
    payrollCycle: Option<string>)

  datatype KycDto = KycDto(
    pan: Option<string>,
    aadhaarLast4: Option<string>,
    uan: Option<string>,
    esiNumber: Option<string>)

  datatype EmergencyContactDto = EmergencyContactDto(
    name: Option<string>,
    relationship: Option<string>,
    phone: Option<string>)

  datatype PreOnboardingRequest = PreOnboardingRequest(
    externalCandidateId: Option<string>,
    crisilOfferId: Option<string>,
    joiningStatus: Option<string>,
    joiningDate: Option<Date>,
    firstName: Option<string>,
    lastName: Option<string>,
    dateOfBirth: Option<Date>,
    gender: Option<string>,
    nationality: Option<string>,
    personalEmail: Option<string>,
    mobileCountryCode: Option<string>,
    mobileNumber: Option<string>,
    address: Option<AddressDto>,
    job: Option<JobDto>,
    pay: Option<PayDto>,
    kyc: Option<KycDto>,
    emergencyContact: Option<EmergencyContactDto>)

  /** The read-side projection of a stored record; timestamps are clock ticks. */
  datatype PreOnboardingResponse = PreOnboardingResponse(
    id: int,
    externalCandidateId: string,
    crisilOfferId: string,
    joiningStatus: Option<string>,
    joiningDate: Date,
    firstName: string,
    lastName: string,
    dateOfBirth: Date,
    gender: Option<string>,
    nationality: Option<string>,
    personalEmail: string,
    mobileCountryCode: Option<string>,
    mobileNumber: string,
    address: Option<AddressDto>,
    job: Option<JobDto>,
    pay: Option<PayDto>,
    kyc: Option<KycDto>,
    emergencyContact: Option<EmergencyContactDto>,
    createdUtc: int,
    updatedUtc: Option<int>)

  /** One field-level problem reported to the client. */
  datatype ApiFieldError = ApiFieldError(field: string, errorCode: string, message: string)

  /** The error envelope every failing response carries. */
  datatype ApiErrorResponse = ApiErrorResponse(
    code: string,
    message: string,
    errors: seq<ApiFieldError>,
    traceId: string)

  /** The envelope code and message shared by both 400 responses: validator
      failures and body-binding failures. */
  const ValidationFailedCode: string := "VALIDATION_FAILED"
  const ValidationFailedMessage: string := "One or more validation errors occurred."
}
