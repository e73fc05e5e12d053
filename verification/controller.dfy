/** `PreOnboardingController`: the header check every endpoint starts with,
    the create pipeline (headers, validation, insert, response envelope), the
    read by id, the search endpoint and the projection of a stored row back to
    the response shape. */
module Controller {
  import opened Wrappers
  import opened Text
  import opened Dates
  import opened Contracts
  import opened Validation
  import opened ValidationProperties
  import opened SnakeCase
  import opened WireNames
  import opened Store
  import opened Search

  // ---------------------------------------------------------------------------
  // Environment

  /** The `Auth:*` configuration values; each may be missing. */
  datatype AuthConfig = AuthConfig(
    tokenHeaderName: Option<string>,
    companyCodeHeaderName: Option<string>,
    expectedToken: Option<string>,
    expectedCompanyCode: Option<string>)

  const DefaultTokenHeader: string := "Token"
  const DefaultCompanyHeader: string := "CompanyCode"

  function TokenHeader(cfg: AuthConfig): string {
    cfg.tokenHeaderName.GetOr(DefaultTokenHeader)
  }

  function CompanyHeader(cfg: AuthConfig): string {
    cfg.companyCodeHeaderName.GetOr(DefaultCompanyHeader)
  }

  /** What the controller reads from the HTTP request: the first value of a
      header (if any), the content type, the raw body and the trace id. */
  datatype HttpRequest = HttpRequest(
    header: string -> Option<string>,
    contentType: Option<string>,
    body: string,
    traceId: string)

  /** A JSON mapping for one nested section: serialising always succeeds,
      deserialising may fail (`None` stands for the exception it throws). */
  datatype Codec<!T> = Codec(serialize: T -> string, deserialize: string -> Option<T>)

  datatype Codecs = Codecs(
    address: Codec<AddressDto>,
    job: Codec<JobDto>,
    pay: Codec<PayDto>,
    kyc: Codec<KycDto>,
    emergencyContact: Codec<EmergencyContactDto>)

  /** The serialiser writes non-blank text that reads back as the same value. */
  ghost predicate Faithful<T(!new)>(c: Codec<T>) {
    forall x: T :: !AllWhiteSpace(c.serialize(x)) && c.deserialize(c.serialize(x)) == Some(x)
  }

  ghost predicate AllFaithful(codecs: Codecs) {
    && Faithful(codecs.address) && Faithful(codecs.job) && Faithful(codecs.pay)
    && Faithful(codecs.kyc) && Faithful(codecs.emergencyContact)
  }

  /** Everything the controller depends on besides the request and the table:
      configuration, validator context, JSON mappings and the current UTC time. */
  datatype Env = Env(cfg: AuthConfig, ctx: Context, codecs: Codecs, now: int)

  // ---------------------------------------------------------------------------
  // Response messages

  const MissingHeadersMessage: string := "Missing authentication headers."
  const InvalidCredentialsMessage: string := "Invalid Token or CompanyCode."
  const InvalidTokenMessage: string := "Invalid Token."
  const InvalidCompanyMessage: string := "Invalid CompanyCode."
  const DuplicateMessage: string := "A record already exists for the given external_candidate_id and crisil_offer_id."
  const DuplicateCandidateMessage: string := "external_candidate_id already used with this crisil_offer_id."
  const DuplicateOfferMessage: string := "crisil_offer_id already used with this external_candidate_id."
  const SavedMessage: string := "Pre-onboarding request saved successfully."
  const NotFoundMessage: string := "Record not found."
  const NoRecordMessage: string := "No record found for the given id."
  const FetchedMessage: string := "Record fetched successfully."
  const SearchedMessage: string := "Search completed successfully."

  // ---------------------------------------------------------------------------
  // Header check

  /** Token compared exactly, company code compared ignoring case; a missing
      expected value matches nothing. */
  predicate CredentialsMatch(cfg: AuthConfig, token: string, company: string) {
    && cfg.expectedToken == Some(token)
    && cfg.expectedCompanyCode.Some? && EqualsIgnoreCase(company, cfg.expectedCompanyCode.value)
  }

  /** `ValidateAuthHeaders`: `None` lets the request through, otherwise the
      401 envelope. */
  function ValidateAuthHeaders(cfg: AuthConfig, req: HttpRequest): (r: Option<ApiErrorResponse>)
    ensures r.Some? ==> r.value.code == "UNAUTHORIZED" && r.value.traceId == req.traceId
    ensures r.Some? ==>
      && |r.value.errors| == 2
      && r.value.errors[0].field == TokenHeader(cfg)
      && r.value.errors[1].field == CompanyHeader(cfg)
    ensures IsBlank(req.header(TokenHeader(cfg))) || IsBlank(req.header(CompanyHeader(cfg))) ==>
      && r.Some? && r.value.message == MissingHeadersMessage
      && r.value.errors[0].errorCode == "REQUIRED" && r.value.errors[1].errorCode == "REQUIRED"
    ensures !IsBlank(req.header(TokenHeader(cfg))) && !IsBlank(req.header(CompanyHeader(cfg))) ==>
      (r.None? <==> CredentialsMatch(cfg, req.header(TokenHeader(cfg)).value, req.header(CompanyHeader(cfg)).value))
    ensures !IsBlank(req.header(TokenHeader(cfg))) && !IsBlank(req.header(CompanyHeader(cfg))) && r.Some? ==>
      && r.value.message == InvalidCredentialsMessage
      && r.value.errors[0].errorCode == "INVALID" && r.value.errors[1].errorCode == "INVALID"
  {
    var tokenName := TokenHeader(cfg);
    var companyName := CompanyHeader(cfg);
    var token := req.header(tokenName);
    var company := req.header(companyName);
    if IsBlank(token) || IsBlank(company) then
      Some(ApiErrorResponse("UNAUTHORIZED", MissingHeadersMessage,
        [ApiFieldError(tokenName, "REQUIRED", tokenName + " header is required."),
         ApiFieldError(companyName, "REQUIRED", companyName + " header is required.")],
        req.traceId))
    else if !CredentialsMatch(cfg, token.value, company.value) then
      Some(ApiErrorResponse("UNAUTHORIZED", InvalidCredentialsMessage,
        [ApiFieldError(tokenName, "INVALID", InvalidTokenMessage),
         ApiFieldError(companyName, "INVALID", InvalidCompanyMessage)],
        req.traceId))
    else None
  }

  /** The request carries the expected credentials. */
  predicate Authorized(cfg: AuthConfig, req: HttpRequest) {
    ValidateAuthHeaders(cfg, req).None?
  }

  /** A request gets through exactly when both headers are present and not
      blank, the token equals the configured one exactly and the company code
      equals the configured one up to ASCII case. */
  lemma AuthorizedIff(cfg: AuthConfig, req: HttpRequest)
    ensures Authorized(cfg, req) <==>
      var token := req.header(TokenHeader(cfg));
      var company := req.header(CompanyHeader(cfg));
      && token.Some? && company.Some?
      && !AllWhiteSpace(token.value) && !AllWhiteSpace(company.value)
      && cfg.expectedToken == token
      && cfg.expectedCompanyCode.Some? && LowerAll(company.value) == LowerAll(cfg.expectedCompanyCode.value)
  {
  }

  /** Without a configured token no request gets through. */
  lemma UnconfiguredTokenRejectsAll(cfg: AuthConfig, req: HttpRequest)
    requires cfg.expectedToken.None? || cfg.expectedCompanyCode.None?
    ensures !Authorized(cfg, req)
  {
  }

  /** The company code is matched ignoring ASCII case, the token is not. */
  lemma CompanyCaseIsIgnored(cfg: AuthConfig, req: HttpRequest, other: string)
    requires Authorized(cfg, req)
    requires EqualsIgnoreCase(other, req.header(CompanyHeader(cfg)).value)
    requires !AllWhiteSpace(other)
    requires TokenHeader(cfg) != CompanyHeader(cfg)
    ensures Authorized(cfg, req.(header := n => if n == CompanyHeader(cfg) then Some(other) else req.header(n)))
  {
  }

  lemma TokenCaseMatters(cfg: AuthConfig, req: HttpRequest, other: string)
    requires Authorized(cfg, req)
    requires other != req.header(TokenHeader(cfg)).value
    requires TokenHeader(cfg) != CompanyHeader(cfg)
    ensures !Authorized(cfg, req.(header := n => if n == TokenHeader(cfg) then Some(other) else req.header(n)))
  {
  }

  // ---------------------------------------------------------------------------
  // Create: the pieces

  /** The 400 envelope for validator failures: one field error per failure,
      in order, under the failure's snake-cased property chain. */
  function ValidationEnvelope(vs: seq<Violation>, traceId: string): (e: ApiErrorResponse)
    ensures e.code == ValidationFailedCode && e.message == ValidationFailedMessage
    ensures e.traceId == traceId && |e.errors| == |vs|
  {
    ApiErrorResponse(ValidationFailedCode, ValidationFailedMessage,
      seq(|vs|, i requires 0 <= i < |vs| => FieldError(vs[i])), traceId)
  }

  /** One validator failure as the client sees it; a blank code becomes `INVALID`. */
  function FieldError(v: Violation): (e: ApiFieldError)
    ensures e.field == ToSnakeCasePath(v.PropertyName())
    ensures e.errorCode == CodeName(v.code) && e.errorCode != "INVALID"
    ensures e.message == Message(v.field, v.code)
  {
    var code := CodeName(v.code);
    ApiFieldError(ToSnakeCasePath(v.PropertyName()), if IsBlank(Some(code)) then "INVALID" else code, Message(v.field, v.code))
  }

  /** The 409 envelope. */
  function DuplicateEnvelope(traceId: string): (e: ApiErrorResponse)
    ensures e.code == "DUPLICATE_REQUEST" && e.traceId == traceId && |e.errors| == 2
    ensures e.errors[0].field == "external_candidate_id" && e.errors[1].field == "crisil_offer_id"
    ensures e.errors[0].errorCode == "DUPLICATE" && e.errors[1].errorCode == "DUPLICATE"
  {
    ApiErrorResponse("DUPLICATE_REQUEST",
      DuplicateMessage,
      [ApiFieldError("external_candidate_id", "DUPLICATE", DuplicateCandidateMessage),
       ApiFieldError("crisil_offer_id", "DUPLICATE", DuplicateOfferMessage)],
      traceId)
  }

  const MaxRawBody: nat := 20000
  const TruncationMarker: string := "...(truncated)"

  /** Keeps the first 20000 characters of an over-long body and marks the cut. */
  function Truncate(body: string): (t: string)
    ensures |body| <= MaxRawBody ==> t == body
    ensures |body| > MaxRawBody ==> |t| == MaxRawBody + |TruncationMarker|
    ensures |t| <= MaxRawBody + |TruncationMarker|
    ensures |body| > MaxRawBody ==> t[..MaxRawBody] == body[..MaxRawBody] && t[MaxRawBody..] == TruncationMarker
  {
    if |body| > MaxRawBody then body[..MaxRawBody] + TruncationMarker else body
  }

  /** The audit copy of the body: kept only for a JSON content type. */
  function CaptureRawBody(contentType: Option<string>, body: string): (raw: Option<string>)
    ensures raw.Some? <==> contentType.Some? && ContainsIgnoreCase(contentType.value, "application/json")
    ensures raw.Some? ==> raw.value == Truncate(body)
  {
    if contentType.Some? && ContainsIgnoreCase(contentType.value, "application/json") then Some(Truncate(body))
    else None
  }

  /** The section as JSON text, absent when the section is absent. */
  function SerializeSection<T>(c: Codec<T>, v: Option<T>): (json: Option<string>)
    ensures json.None? <==> v.None?
  {
    if v.None? then None else Some(c.serialize(v.value))
  }

  /** The read-side guard: blank text gives no section, unreadable text gives
      no section, otherwise the deserialised value. */
  function DeserializeSection<T>(c: Codec<T>, json: Option<string>): (v: Option<T>)
    ensures IsBlank(json) ==> v.None?
    ensures !IsBlank(json) ==> v == c.deserialize(json.value)
  {
    if IsBlank(json) then None else c.deserialize(json.value)
  }

  /** Writing a section and reading it back gives the section, absence included. */
  lemma SectionRoundTrip<T(!new)>(c: Codec<T>, v: Option<T>)
    requires Faithful(c)
    ensures DeserializeSection(c, SerializeSection(c, v)) == v
  {
    if v.Some? {
      assert !AllWhiteSpace(c.serialize(v.value));
    }
  }

  /** The request fields the entity construction dereferences. */
  predicate Complete(r: PreOnboardingRequest) {
    && r.externalCandidateId.Some? && r.crisilOfferId.Some?
    && r.joiningDate.Some? && r.firstName.Some? && r.lastName.Some?
    && r.dateOfBirth.Some? && r.personalEmail.Some? && r.mobileNumber.Some?
  }

  /** A request the validator accepts has every dereferenced field. */
  lemma AcceptedIsComplete(r: PreOnboardingRequest, ctx: Context)
    requires Validate(r, ctx) == []
    ensures Complete(r)
  {
    AcceptedIff(r, ctx);
  }

  /** The row to insert; the id is assigned by the table. */
  function BuildEntity(r: PreOnboardingRequest, raw: Option<string>, createdBy: Option<string>, now: int, codecs: Codecs): (e: Entity)
    requires Complete(r)
    ensures e.addressJson.None? <==> r.address.None?
    ensures e.jobJson.None? <==> r.job.None?
    ensures e.payJson.None? <==> r.pay.None?
    ensures e.kycJson.None? <==> r.kyc.None?
    ensures e.emergencyContactJson.None? <==> r.emergencyContact.None?
    ensures e.status == ActiveStatus && e.updatedUtc.None? && e.updatedBy.None?
  {
    Entity(
      0,
      r.externalCandidateId.value,
      r.crisilOfferId.value,
      r.joiningStatus,
      r.joiningDate.value,
      r.firstName.value,
      r.lastName.value,
      r.dateOfBirth.value,
      r.gender,
      r.nationality,
      r.personalEmail.value,
      r.mobileCountryCode,
      r.mobileNumber.value,
      SerializeSection(codecs.address, r.address),
      SerializeSection(codecs.job, r.job),
      SerializeSection(codecs.pay, r.pay),
      SerializeSection(codecs.kyc, r.kyc),
      SerializeSection(codecs.emergencyContact, r.emergencyContact),
      now,
      None,
      createdBy,
      None,
      raw,
      ActiveStatus)
  }

  // ---------------------------------------------------------------------------
  // Create

  /** The `data` object of a successful create. */
  datatype CreatedData = CreatedData(id: int, externalCandidateId: string, crisilOfferId: string)

  datatype CreateResult =
    | Unauthorized(error: ApiErrorResponse)
    | BadRequest(error: ApiErrorResponse)
    | Conflict(error: ApiErrorResponse)
    | Saved(code: string, message: string, data: CreatedData, traceId: string)

  datatype CreateOutcome = CreateOutcome(result: CreateResult, store: Store)

  /** `Create`: headers, then validation, then the insert, then the envelope. */
  function Create(env: Env, req: HttpRequest, request: PreOnboardingRequest, st: Store): (out: CreateOutcome)
    ensures out.result.Saved? || out.store == st
  {
    match ValidateAuthHeaders(env.cfg, req)
    case Some(e) => CreateOutcome(Unauthorized(e), st)
    case None =>
      var vs := Validate(request, env.ctx);
      if vs != [] then CreateOutcome(BadRequest(ValidationEnvelope(vs, req.traceId)), st)
      else
        AcceptedIsComplete(request, env.ctx);
        Persist(env, req, request, st)
  }

  /** The row a create writes: the body is captured for the audit column and
      the company-code header value becomes `CreatedBy`. */
  function NewEntity(env: Env, req: HttpRequest, request: PreOnboardingRequest): (e: Entity)
    requires Complete(request)
    ensures Some(e.externalCandidateId) == request.externalCandidateId && Some(e.crisilOfferId) == request.crisilOfferId
    ensures Some(e.joiningDate) == request.joiningDate && Some(e.dateOfBirth) == request.dateOfBirth
    ensures Some(e.firstName) == request.firstName && Some(e.lastName) == request.lastName
    ensures Some(e.personalEmail) == request.personalEmail && Some(e.mobileNumber) == request.mobileNumber
    ensures e.joiningStatus == request.joiningStatus && e.gender == request.gender
    ensures e.nationality == request.nationality && e.mobileCountryCode == request.mobileCountryCode
    ensures e.createdUtc == env.now && e.createdBy == req.header(CompanyHeader(env.cfg))
    ensures e.rawRequestJson.Some? <==>
      req.contentType.Some? && ContainsIgnoreCase(req.contentType.value, "application/json")
    ensures e.status == ActiveStatus && e.updatedUtc.None? && e.updatedBy.None?
  {
    BuildEntity(request, CaptureRawBody(req.contentType, req.body),
                req.header(CompanyHeader(env.cfg)), env.now, env.codecs)
  }

  /** The save step of `Create`: the insert and the 409 or 200 envelope. */
  function Persist(env: Env, req: HttpRequest, request: PreOnboardingRequest, st: Store): (out: CreateOutcome)
    requires Complete(request)
    ensures out.result.Conflict? <==> KeyTaken(st, request.externalCandidateId.value, request.crisilOfferId.value)
    ensures out.result.Conflict? || out.result.Saved?
    ensures out.result.Conflict? ==> out.store == st && out.result.error == DuplicateEnvelope(req.traceId)
  {
    var e := NewEntity(env, req, request);
    match Insert(st, e)
    case DuplicateKey => CreateOutcome(Conflict(DuplicateEnvelope(req.traceId)), st)
    case Inserted(st', id) =>
      CreateOutcome(Saved("SUCCESS", SavedMessage,
                          CreatedData(id, e.externalCandidateId, e.crisilOfferId), req.traceId), st')
  }

  /** Past the header check and the validator, `Create` is the save step. */
  lemma CreateReachesPersist(env: Env, req: HttpRequest, request: PreOnboardingRequest, st: Store)
    requires Authorized(env.cfg, req) && Validate(request, env.ctx) == []
    ensures Complete(request)
    ensures Create(env, req, request, st) == Persist(env, req, request, st)
  {
    AcceptedIsComplete(request, env.ctx);
  }

  /** The outcome is decided in order: credentials, then acceptability, then
      the key pair's freshness. */
  lemma CreateDecision(env: Env, req: HttpRequest, request: PreOnboardingRequest, st: Store)
    ensures Create(env, req, request, st).result.Unauthorized? <==> !Authorized(env.cfg, req)
    ensures Create(env, req, request, st).result.BadRequest? <==>
      Authorized(env.cfg, req) && !Acceptable(request, env.ctx)
    ensures Create(env, req, request, st).result.Conflict? <==>
      && Authorized(env.cfg, req) && Acceptable(request, env.ctx)
      && KeyTaken(st, request.externalCandidateId.value, request.crisilOfferId.value)
    ensures Create(env, req, request, st).result.Saved? <==>
      && Authorized(env.cfg, req) && Acceptable(request, env.ctx)
      && !KeyTaken(st, request.externalCandidateId.value, request.crisilOfferId.value)
  {
    AcceptedIff(request, env.ctx);
  }

  /** A validation failure reports every validator failure, in order, under
      its wire name, with its own code and the message its check declares. */
  lemma RejectionListsEveryFailure(env: Env, req: HttpRequest, request: PreOnboardingRequest, st: Store)
    requires Create(env, req, request, st).result.BadRequest?
    ensures var e := Create(env, req, request, st).result.error;
      var vs := Validate(request, env.ctx);
      && e.code == ValidationFailedCode && e.traceId == req.traceId
      && |e.errors| == |vs| > 0
      && forall i :: 0 <= i < |vs| ==>
           && e.errors[i].field == WireName(vs[i].field)
           && e.errors[i].errorCode == CodeName(vs[i].code)
           && e.errors[i].message == Message(vs[i].field, vs[i].code)
           && Declares(vs[i].field, vs[i].code)
  {
    var vs := Validate(request, env.ctx);
    ValidateMessagesDeclared(request, env.ctx);
    forall i | 0 <= i < |vs|
      ensures FieldError(vs[i]).field == WireName(vs[i].field)
      ensures FieldError(vs[i]).errorCode == CodeName(vs[i].code)
      ensures Declares(vs[i].field, vs[i].code)
    {
      PathsAreWireNames(vs[i].field);
      CodeNameIsNotBlank(vs[i].code);
      assert vs[i] in vs;
    }
  }

  /** A conflict names both key fields with the code DUPLICATE. */
  lemma ConflictNamesTheKeys(env: Env, req: HttpRequest, request: PreOnboardingRequest, st: Store)
    requires Create(env, req, request, st).result.Conflict?
    ensures var e := Create(env, req, request, st).result.error;
      && e.code == "DUPLICATE_REQUEST" && e.traceId == req.traceId && |e.errors| == 2
      && e.errors[0].field == "external_candidate_id" && e.errors[1].field == "crisil_offer_id"
      && e.errors[0].errorCode == "DUPLICATE" && e.errors[1].errorCode == "DUPLICATE"
  {
    ConflictIsDuplicate(env, req, request, st);
  }

  lemma ConflictIsDuplicate(env: Env, req: HttpRequest, request: PreOnboardingRequest, st: Store)
    requires Create(env, req, request, st).result.Conflict?
    ensures Create(env, req, request, st).result.error == DuplicateEnvelope(req.traceId)
  {
    CreateReachesPersist(env, req, request, st);
  }

  /** A save adds exactly one row, under an id above every stored id, and
      echoes that id and the key pair. */
  lemma SaveAddsOneFreshRow(env: Env, req: HttpRequest, request: PreOnboardingRequest, st: Store)
    requires Valid(st)
    requires Create(env, req, request, st).result.Saved?
    ensures var out := Create(env, req, request, st);
      && out.result.code == "SUCCESS" && out.result.traceId == req.traceId
      && Some(out.result.data.externalCandidateId) == request.externalCandidateId
      && Some(out.result.data.crisilOfferId) == request.crisilOfferId
      && out.result.data.id == st.nextId
      && (forall i :: 0 <= i < |st.rows| ==> st.rows[i].id < out.result.data.id)
      && |out.store.rows| == |st.rows| + 1
      && out.store.rows[..|st.rows|] == st.rows
      && Valid(out.store)
  {
    AcceptedIff(request, env.ctx);
    CreateReachesPersist(env, req, request, st);
    var e := NewEntity(env, req, request);
    InsertIdIsFresh(st, e);
    InsertPreservesValid(st, e);
  }

  /** Every create keeps the table's constraints. */
  lemma CreatePreservesValid(env: Env, req: HttpRequest, request: PreOnboardingRequest, st: Store)
    requires Valid(st)
    ensures Valid(Create(env, req, request, st).store)
  {
    if Create(env, req, request, st).result.Saved? {
      SaveAddsOneFreshRow(env, req, request, st);
    }
  }

  /** Sending the same request again after a save is a conflict. */
  lemma CreateTwiceConflicts(env: Env, req: HttpRequest, request: PreOnboardingRequest, st: Store)
    requires Create(env, req, request, st).result.Saved?
    ensures Create(env, req, request, Create(env, req, request, st).store).result.Conflict?
  {
    AcceptedIff(request, env.ctx);
    CreateReachesPersist(env, req, request, st);
    var e := NewEntity(env, req, request);
    InsertTwiceIsDuplicate(st, e, e);
    CreateDecision(env, req, request, Create(env, req, request, st).store);
  }

  // ---------------------------------------------------------------------------
  // Read side

  /** `Map`: the stored row as the response shape, sections read back through
      the guard. */
  function ToResponse(e: Entity, codecs: Codecs): (r: PreOnboardingResponse)
    ensures r.id == e.id && r.externalCandidateId == e.externalCandidateId && r.crisilOfferId == e.crisilOfferId
    ensures r.joiningStatus == e.joiningStatus && r.joiningDate == e.joiningDate
    ensures r.firstName == e.firstName && r.lastName == e.lastName && r.dateOfBirth == e.dateOfBirth
    ensures r.gender == e.gender && r.nationality == e.nationality
    ensures r.personalEmail == e.personalEmail
    ensures r.mobileCountryCode == e.mobileCountryCode && r.mobileNumber == e.mobileNumber
    ensures r.createdUtc == e.createdUtc && r.updatedUtc == e.updatedUtc
    // each section is read back through the blank guard, so a blank column is
    // an absent section and any other column is whatever the mapping makes of it
    ensures r.address == DeserializeSection(codecs.address, e.addressJson)
    ensures r.job == DeserializeSection(codecs.job, e.jobJson)
    ensures r.pay == DeserializeSection(codecs.pay, e.payJson)
    ensures r.kyc == DeserializeSection(codecs.kyc, e.kycJson)
    ensures r.emergencyContact == DeserializeSection(codecs.emergencyContact, e.emergencyContactJson)
    ensures IsBlank(e.addressJson) ==> r.address.None?
    ensures IsBlank(e.jobJson) ==> r.job.None?
    ensures IsBlank(e.payJson) ==> r.pay.None?
    ensures IsBlank(e.kycJson) ==> r.kyc.None?
    ensures IsBlank(e.emergencyContactJson) ==> r.emergencyContact.None?
  {
    PreOnboardingResponse(
      e.id,
      e.externalCandidateId,
      e.crisilOfferId,
      e.joiningStatus,
      e.joiningDate,
      e.firstName,
      e.lastName,
      e.dateOfBirth,
      e.gender,
      e.nationality,
      e.personalEmail,
      e.mobileCountryCode,
      e.mobileNumber,
      DeserializeSection(codecs.address, e.addressJson),
      DeserializeSection(codecs.job, e.jobJson),
      DeserializeSection(codecs.pay, e.payJson),
      DeserializeSection(codecs.kyc, e.kycJson),
      DeserializeSection(codecs.emergencyContact, e.emergencyContactJson),
      e.createdUtc,
      e.updatedUtc)
  }

  datatype GetResult =
    | GetUnauthorized(error: ApiErrorResponse)
    | NotFound(error: ApiErrorResponse)
    | Fetched(code: string, message: string, data: PreOnboardingResponse, traceId: string)

  /** `GetById`. */
  function GetById(env: Env, req: HttpRequest, st: Store, id: int): (r: GetResult)
    ensures r.GetUnauthorized? <==> !Authorized(env.cfg, req)
    ensures r.NotFound? <==> Authorized(env.cfg, req) && !HasId(st, id)
    ensures r.NotFound? ==> r.error.code == "NOT_FOUND" && r.error.errors == [ApiFieldError("id", "NOT_FOUND", NoRecordMessage)]
    ensures r.NotFound? ==> r.error.traceId == req.traceId
    ensures r.Fetched? ==> r.code == "SUCCESS" && r.traceId == req.traceId
    ensures r.Fetched? ==> FindById(st, id).Some? && r.data == ToResponse(FindById(st, id).value, env.codecs)
    ensures r.Fetched? ==> r.data.id == id
  {
    var auth := ValidateAuthHeaders(env.cfg, req);
    if auth.Some? then GetUnauthorized(auth.value)
    else match FindById(st, id)
      case None =>
        NotFound(ApiErrorResponse("NOT_FOUND", NotFoundMessage,
          [ApiFieldError("id", "NOT_FOUND", NoRecordMessage)], req.traceId))
      case Some(e) => Fetched("SUCCESS", FetchedMessage, ToResponse(e, env.codecs), req.traceId)
  }

  /** Reading any stored row by its id returns that row, mapped; so `GetById`
      can show every row the table holds and nothing else under that id. */
  lemma GetByIdReadsEveryRow(env: Env, req: HttpRequest, st: Store, k: int)
    requires Valid(st)
    requires Authorized(env.cfg, req)
    requires 0 <= k < |st.rows|
    ensures GetById(env, req, st, st.rows[k].id)
      == Fetched("SUCCESS", FetchedMessage, ToResponse(st.rows[k], env.codecs), req.traceId)
  {
    FindStored(st, k);
  }

  /** What a save followed by a read by the new id returns: the request's own
      values, nested sections included when the JSON mappings are faithful. */
  lemma SavedRecordReadsBack(env: Env, req: HttpRequest, request: PreOnboardingRequest, st: Store)
    requires Valid(st)
    requires AllFaithful(env.codecs)
    requires Create(env, req, request, st).result.Saved?
    ensures var out := Create(env, req, request, st);
      var got := GetById(env, req, out.store, out.result.data.id);
      && got.Fetched?
      && Some(got.data.externalCandidateId) == request.externalCandidateId
      && Some(got.data.crisilOfferId) == request.crisilOfferId
      && Some(got.data.joiningDate) == request.joiningDate
      && Some(got.data.dateOfBirth) == request.dateOfBirth
      && Some(got.data.firstName) == request.firstName
      && Some(got.data.lastName) == request.lastName
      && Some(got.data.personalEmail) == request.personalEmail
      && Some(got.data.mobileNumber) == request.mobileNumber
      && got.data.joiningStatus == request.joiningStatus
      && got.data.gender == request.gender
      && got.data.nationality == request.nationality
      && got.data.mobileCountryCode == request.mobileCountryCode
      && got.data.address == request.address
      && got.data.job == request.job
      && got.data.pay == request.pay
      && got.data.kyc == request.kyc
      && got.data.emergencyContact == request.emergencyContact
      && got.data.createdUtc == env.now
      && got.data.updatedUtc.None?
  {
    AcceptedIff(request, env.ctx);
    CreateReachesPersist(env, req, request, st);
    var e := NewEntity(env, req, request);
    InsertThenFind(st, e);
    SectionRoundTrip(env.codecs.address, request.address);
    SectionRoundTrip(env.codecs.job, request.job);
    SectionRoundTrip(env.codecs.pay, request.pay);
    SectionRoundTrip(env.codecs.kyc, request.kyc);
    SectionRoundTrip(env.codecs.emergencyContact, request.emergencyContact);
  }

  // ---------------------------------------------------------------------------
  // Search endpoint

  /** The search response's `data` object, rows mapped to the response shape. */
  datatype SearchData = SearchData(page: int, pageSize: int, total: nat, items: seq<PreOnboardingResponse>)

  datatype SearchResult =
    | SearchUnauthorized(error: ApiErrorResponse)
    | Found(code: string, message: string, data: SearchData, traceId: string)

  function SearchEndpoint(env: Env, req: HttpRequest, st: Store, q: SearchQuery): (r: SearchResult)
    ensures r.SearchUnauthorized? <==> !Authorized(env.cfg, req)
    ensures r.Found? ==> |r.data.items| == |SearchRows(st, q).items| <= r.data.pageSize
    ensures r.Found? ==> r.code == "SUCCESS" && r.traceId == req.traceId
    ensures r.Found? ==> var p := SearchRows(st, q);
      r.data.page == p.page && r.data.pageSize == p.pageSize && r.data.total == p.total
    ensures r.Found? ==> forall i :: 0 <= i < |r.data.items| ==> r.data.items[i] == ToResponse(SearchRows(st, q).items[i], env.codecs)
    ensures r.Found? ==> forall i :: 0 <= i < |r.data.items| ==> r.data.items[i].id == SearchRows(st, q).items[i].id
  {
    var auth := ValidateAuthHeaders(env.cfg, req);
    if auth.Some? then SearchUnauthorized(auth.value)
    else
      var p := SearchRows(st, q);
      Found("SUCCESS", SearchedMessage,
        SearchData(p.page, p.pageSize, p.total,
          seq(|p.items|, i requires 0 <= i < |p.items| => ToResponse(p.items[i], env.codecs))),
        req.traceId)
  }
}
