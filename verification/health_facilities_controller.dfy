/**
  HealthFacilitiesController: super-admin-only create, update and delete of
  facilities, the owner-or-super-admin distribution endpoint, and the
  unauthenticated reads. Each write resolves the caller, then authorizes,
  then validates, then mutates; each failure becomes an envelope with a
  null payload and leaves the state as it was.
 */
module HealthFacilitiesController {
  import opened Options
  import opened Errors
  import opened Domain
  import opened Tables
  import opened AuthService
  import opened Backend

  const CreateDenied := BusinessError(HttpUnauthorized, Unauthorized, "Unauthorized to create new health facility.")
  const DeleteDenied := BusinessError(HttpUnauthorized, Unauthorized, "Unauthorized to delete health facility.")
  const UpdateDenied := BusinessError(HttpUnauthorized, Unauthorized, "Unauthorized to update health facility.")
  const DistributionDenied := BusinessError(HttpUnauthorized, Unauthorized, "Unauthorized to create vaccine distribution.")

  /** `(Admin) authService.getInfoByPrincipal("admin_" + principal.getName())` */
  function ResolveAdmin(s: State, caller: string): (r: Result<Admin>)
    ensures r.Ok? <==> caller in s.admins
    ensures r.Ok? ==> r.value == s.admins[caller]
    ensures r.Err? ==> r.failure == Business(InfoNotFound)
  {
    TaggedAdminName(caller);
    match GetInfoByPrincipal(s.admins, s.users, AdminTag + caller)
    case Err(f) => Err(f)
    case Ok(AdminIdentity(a)) => Ok(a)
    case Ok(UserIdentity(_)) => Err(ClassCast)
  }

  /** Resolve the caller, then refuse one without the super-admin flag with `denied`. */
  function RequireSuperAdmin(s: State, caller: string, denied: BusinessError): (r: Result<Admin>)
    ensures r.Ok? <==> IsSuperAdmin(s, caller)
    ensures r.Err? ==> r.failure == Business(InfoNotFound) || r.failure == Business(denied)
  {
    match ResolveAdmin(s, caller)
    case Err(f) => Err(f)
    case Ok(admin) => if !admin.superAdmin then Err(Business(denied)) else Ok(admin)
  }

  /** `create`: 201 CREATED with the new facility under a fresh id. */
  function Create(s: State, svc: Services, caller: string, body: Facility): (r: Reply)
    ensures !IsSuperAdmin(s, caller) ==> r == Reply(UnauthorizedEnvelope, s)
    ensures IsSuperAdmin(s, caller) && !svc.validFacility(body) ==> r == Reply(InvalidInputEnvelope, s)
    ensures IsSuperAdmin(s, caller) && svc.validFacility(body) ==>
              var id := s.facilities.nextId;
              && r.envelope == Envelope(Success, HttpCreated, Some(FacilityBody(id, body)))
              && r.state.facilities.rows == s.facilities.rows[id := body]
              && r.state == s.(facilities := r.state.facilities)
              && (s.facilities.Valid() ==> id !in s.facilities.rows && r.state.facilities.Valid())
  {
    match RequireSuperAdmin(s, caller, CreateDenied)
    case Err(f) => Reply(CatchValidation(f), s)
    case Ok(_) =>
      if !svc.validFacility(body) then Reply(CatchValidation(ConstraintViolation), s)
      else
        var (facilities', id) := Insert(s.facilities, body);
        Reply(Envelope(Success, HttpCreated, Some(FacilityBody(id, body))), s.(facilities := facilities'))
  }

  /** `update`: 200 OK with the overwritten facility. */
  function Update(s: State, svc: Services, caller: string, id: nat, body: Facility): (r: Reply)
    ensures !IsSuperAdmin(s, caller) ==> r == Reply(UnauthorizedEnvelope, s)
    ensures IsSuperAdmin(s, caller) && !svc.validFacility(body) ==> r == Reply(InvalidInputEnvelope, s)
    ensures IsSuperAdmin(s, caller) && svc.validFacility(body) && id !in s.facilities.rows ==>
              r == Reply(ErrorEnvelope(svc.facilityNotFound), s)
    ensures IsSuperAdmin(s, caller) && svc.validFacility(body) && id in s.facilities.rows ==>
              && r.envelope == Envelope(Success, HttpOk, Some(FacilityBody(id, body)))
              && r.state.facilities == s.facilities.(rows := s.facilities.rows[id := body])
              && r.state == s.(facilities := r.state.facilities)
  {
    match RequireSuperAdmin(s, caller, UpdateDenied)
    case Err(f) => Reply(CatchValidation(f), s)
    case Ok(_) =>
      if !svc.validFacility(body) then Reply(CatchValidation(ConstraintViolation), s)
      else
        match Replace(s.facilities, id, body)
        case None => Reply(CatchValidation(Business(svc.facilityNotFound)), s)
        case Some(facilities') =>
          Reply(Envelope(Success, HttpOk, Some(FacilityBody(id, body))), s.(facilities := facilities'))
  }

  /** `delete`: 200 OK with a null payload. */
  function Delete(s: State, svc: Services, caller: string, id: nat): (r: Reply)
    ensures !IsSuperAdmin(s, caller) ==> r == Reply(UnauthorizedEnvelope, s)
    ensures IsSuperAdmin(s, caller) && id !in s.facilities.rows ==> r == Reply(ErrorEnvelope(svc.facilityNotFound), s)
    ensures IsSuperAdmin(s, caller) && id in s.facilities.rows ==>
              && r.envelope == Envelope(Success, HttpOk, None)
              && r.state.facilities.rows.Keys == s.facilities.rows.Keys - {id}
              && (forall k :: k in r.state.facilities.rows ==> r.state.facilities.rows[k] == s.facilities.rows[k])
              && r.state == s.(facilities := r.state.facilities)
  {
    match RequireSuperAdmin(s, caller, DeleteDenied)
    case Err(f) => Reply(CatchBusiness(f), s)
    case Ok(_) =>
      match Remove(s.facilities, id)
      case None => Reply(CatchBusiness(Business(svc.facilityNotFound)), s)
      case Some(facilities') => Reply(Envelope(Success, HttpOk, None), s.(facilities := facilities'))
  }

  /** `findById`: no caller, no check. */
  function FindById(s: State, svc: Services, id: nat): (e: Envelope)
    ensures id in s.facilities.rows ==> e == Envelope(Success, HttpOk, Some(FacilityBody(id, s.facilities.rows[id])))
    ensures id !in s.facilities.rows ==> e == ErrorEnvelope(svc.facilityNotFound)
  {
    match FindFacility(s, svc, id)
    case Err(f) => CatchBusiness(f)
    case Ok(facility) => Envelope(Success, HttpOk, Some(FacilityBody(id, facility)))
  }

  /** `findAll(city_id)`: every facility, or those of one city. */
  function FindAll(s: State, cityId: Option<nat>): (e: Envelope)
    ensures e.code == Success && e.status == HttpOk && e.payload.Some? && e.payload.value.FacilityList?
    ensures var listed := e.payload.value.facilities;
            forall k :: k in listed <==>
              k in s.facilities.rows && (cityId.None? || s.facilities.rows[k].cityId == cityId.value)
    ensures var listed := e.payload.value.facilities;
            forall k :: k in listed ==> listed[k] == s.facilities.rows[k]
  {
    var listed := Filter(s.facilities, (f: Facility) => cityId.None? || f.cityId == cityId.value);
    Envelope(Success, HttpOk, Some(FacilityList(listed)))
  }

  /** `getAllVaccines(id)`: the distributions recorded against one facility. */
  function GetAllVaccines(s: State, id: nat): (e: Envelope)
    ensures e.code == Success && e.status == HttpOk && e.payload.Some? && e.payload.value.DistributionList?
    ensures var listed := e.payload.value.distributions;
            forall k :: k in listed <==> k in s.distributions.rows && s.distributions.rows[k].facilityId == id
    ensures var listed := e.payload.value.distributions;
            forall k :: k in listed ==> listed[k] == s.distributions.rows[k]
  {
    var listed := Filter(s.distributions, (d: Distribution) => d.facilityId == id);
    Envelope(Success, HttpOk, Some(DistributionList(listed)))
  }

  /**
    The ownership rule as written: the caller is a stored admin, the facility
    exists and has an owning admin, and that admin is the caller or the
    caller is a super-admin.
   */
  predicate MayDistribute(s: State, caller: string, id: nat) {
    && caller in s.admins
    && id in s.facilities.rows
    && s.facilities.rows[id].owner.Some?
    && (s.facilities.rows[id].owner.value == s.admins[caller].id || s.admins[caller].superAdmin)
  }

  /**
    `createVaccineDistribution`: resolve the caller, look the facility up,
    compare owners (dereferencing the owner before the super-admin test),
    then record the request with the path id stamped over its facility.
   */
  function CreateVaccineDistribution(s: State, svc: Services, caller: string, id: nat, body: DistributionRequest)
    : (r: Reply)
    ensures caller !in s.admins ==> r == Reply(UnauthorizedEnvelope, s)
    ensures caller in s.admins && id !in s.facilities.rows ==> r == Reply(ErrorEnvelope(svc.facilityNotFound), s)
    ensures caller in s.admins && id in s.facilities.rows && s.facilities.rows[id].owner.None? ==>
              r == Reply(InternalErrorEnvelope, s)
    ensures (caller in s.admins && id in s.facilities.rows && s.facilities.rows[id].owner.Some?
             && !MayDistribute(s, caller, id)) ==> r == Reply(UnauthorizedEnvelope, s)
    ensures MayDistribute(s, caller, id) && body.vaccineId !in s.vaccines.rows ==>
              r == Reply(ErrorEnvelope(svc.vaccineNotFound), s)
    ensures MayDistribute(s, caller, id) && body.vaccineId in s.vaccines.rows ==>
              var rid := s.distributions.nextId;
              var d := Distribution(id, body.vaccineId, body.quantity);
              && r.envelope == Envelope(Success, HttpOk, Some(DistributionBody(rid, d)))
              && r.state.distributions.rows == s.distributions.rows[rid := d]
              && r.state == s.(distributions := r.state.distributions)
  {
    match ResolveAdmin(s, caller)
    case Err(f) => Reply(CatchBusiness(f), s)
    case Ok(admin) =>
      match FindFacility(s, svc, id)
      case Err(f) => Reply(CatchBusiness(f), s)
      case Ok(facility) =>
        match facility.owner
        case None => Reply(CatchBusiness(NullDereference), s)
        case Some(owner) =>
          if owner != admin.id && !admin.superAdmin then Reply(CatchBusiness(Business(DistributionDenied)), s)
          else
            var stamped := body.(facility := Some(id));
            match Distribute(s, svc, stamped)
            case Err(f) => Reply(CatchBusiness(f), s)
            case Ok((distributions', rid, d)) =>
              Reply(Envelope(Success, HttpOk, Some(DistributionBody(rid, d))), s.(distributions := distributions'))
  }

  /** The facility named in the body never matters: the path id is what gets recorded. */
  lemma DistributionIgnoresBodyFacility(s: State, svc: Services, caller: string, id: nat,
                                        body: DistributionRequest, other: Option<nat>)
    ensures CreateVaccineDistribution(s, svc, caller, id, body)
            == CreateVaccineDistribution(s, svc, caller, id, body.(facility := other))
  {
  }

  /** A missing facility is reported the same way to every stored caller, super-admin or not. */
  lemma MissingFacilityPrecedesOwnership(s: State, svc: Services, caller1: string, caller2: string, id: nat,
                                         body: DistributionRequest)
    requires caller1 in s.admins && caller2 in s.admins && id !in s.facilities.rows
    ensures CreateVaccineDistribution(s, svc, caller1, id, body) == CreateVaccineDistribution(s, svc, caller2, id, body)
  {
  }

  /** A facility created by a super-admin reads back by the id the response returned. */
  lemma CreatedFacilityReadsBack(s: State, svc: Services, caller: string, body: Facility)
    requires IsSuperAdmin(s, caller) && svc.validFacility(body)
    ensures var r := Create(s, svc, caller, body);
            FindById(r.state, svc, r.envelope.payload.value.facilityId)
            == Envelope(Success, HttpOk, Some(FacilityBody(r.envelope.payload.value.facilityId, body)))
  {
  }

}
