/**
  The state the controllers act on, the response envelope they build, and
  the services outside this model, reduced to map operations that can fail
  with the service's own not-found error.
 */
module Backend {
  import opened Options
  import opened Errors
  import opened Domain
  import opened Tables
  import opened UserTable

  datatype State = State(
    admins: map<string, Admin>,
    users: Users,
    facilities: Table<Facility>,
    vaccines: Table<Vaccine>,
    distributions: Table<Distribution>)
  {
    ghost predicate Valid() {
      users.Valid() && facilities.Valid() && vaccines.Valid() && distributions.Valid()
    }
  }

  /**
    What the services outside this model contribute: the error each raises
    for a missing record, and the field validator's verdict on a facility
    body (`Validation.validate`).
   */
  datatype Services = Services(
    facilityNotFound: BusinessError,
    vaccineNotFound: BusinessError,
    adminNotFound: BusinessError,
    validFacility: Facility -> bool)
  {
    /** The services' errors carry error statuses. */
    predicate WellFormed() {
      !facilityNotFound.status.IsSuccess() && !vaccineNotFound.status.IsSuccess()
      && !adminNotFound.status.IsSuccess()
    }
  }

  /** What a response carries on success. */
  datatype Payload =
    | FacilityBody(facilityId: nat, facility: Facility)
    | FacilityList(facilities: map<nat, Facility>)
    | VaccineBody(vaccineId: nat, vaccine: Vaccine)
    | VaccineList(vaccines: map<nat, Vaccine>)
    | DistributionBody(distributionId: nat, distribution: Distribution)
    | DistributionList(distributions: map<nat, Distribution>)

  /** The (code, status, payload) triple `Response.build` wraps. */
  datatype Envelope = Envelope(code: ResponseCode, status: HttpStatus, payload: Option<Payload>)

  /** A write handler's envelope and the state it leaves behind. */
  datatype Reply = Reply(envelope: Envelope, state: State)

  function ErrorEnvelope(e: BusinessError): Envelope {
    Envelope(e.code, e.status, None)
  }

  const UnauthorizedEnvelope := Envelope(Unauthorized, HttpUnauthorized, None)
  const InvalidInputEnvelope := Envelope(InvalidInput, HttpBadRequest, None)
  const InternalErrorEnvelope := Envelope(InternalServerError, HttpInternalServerError, None)

  /**
    The `catch (BusinessFlowException)` / `catch (Exception)` pair: a typed
    error keeps its code and status, anything else is an internal error, and
    no error envelope carries a payload.
   */
  function CatchBusiness(f: Failure): (e: Envelope)
    ensures e.payload.None?
    ensures f.Business? ==> e.code == f.error.code && e.status == f.error.status
    ensures !f.Business? ==> e == InternalErrorEnvelope
  {
    match f
    case Business(error) => ErrorEnvelope(error)
    case _ => InternalErrorEnvelope
  }

  /** The same, behind a first `catch (ConstraintViolationException)` giving INVALID_INPUT. */
  function CatchValidation(f: Failure): (e: Envelope)
    ensures e.payload.None?
    ensures f == ConstraintViolation ==> e == InvalidInputEnvelope
    ensures f != ConstraintViolation ==> e == CatchBusiness(f)
  {
    if f == ConstraintViolation then InvalidInputEnvelope else CatchBusiness(f)
  }

  /** The caller is a stored admin with the super-admin flag. */
  predicate IsSuperAdmin(s: State, caller: string) {
    caller in s.admins && s.admins[caller].superAdmin
  }

  /** `healthFacilityService.find(id)` */
  function FindFacility(s: State, svc: Services, id: nat): Result<Facility> {
    if id in s.facilities.rows then Ok(s.facilities.rows[id]) else Err(Business(svc.facilityNotFound))
  }

  /** `adminService.find(name)`: the admin stored under the raw name. */
  function FindAdmin(s: State, svc: Services, name: string): Result<Admin> {
    if name in s.admins then Ok(s.admins[name]) else Err(Business(svc.adminNotFound))
  }

  /**
    `healthFacilitiesVaccinesService.distribute(request)`: record the
    allocation against the facility the request names; the vaccine must exist.
   */
  function Distribute(s: State, svc: Services, req: DistributionRequest): Result<(Table<Distribution>, nat, Distribution)> {
    match req.facility
    case None => Err(NullDereference)
    case Some(facilityId) =>
      if req.vaccineId !in s.vaccines.rows then Err(Business(svc.vaccineNotFound))
      else
        var d := Distribution(facilityId, req.vaccineId, req.quantity);
        var (t, id) := Insert(s.distributions, d);
        Ok((t, id, d))
  }

  /** `vaccineService.find(id)` */
  function FindVaccine(s: State, svc: Services, id: nat): Result<Vaccine> {
    if id in s.vaccines.rows then Ok(s.vaccines.rows[id]) else Err(Business(svc.vaccineNotFound))
  }

}
