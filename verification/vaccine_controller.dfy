/**
  VaccineController: super-admin-only create, update and delete of the
  vaccine catalog, and the unauthenticated reads. The caller is resolved
  through the admin service by the raw principal name, with no `admin_` tag.
 */
module VaccineController {
  import opened Options
  import opened Errors
  import opened Domain
  import opened Tables
  import opened Backend

  const CreateDenied := BusinessError(HttpUnauthorized, Unauthorized, "Unauthorized to create new vaccine.")
  const DeleteDenied := BusinessError(HttpUnauthorized, Unauthorized, "Unauthorized to delete vaccine.")
  const UpdateDenied := BusinessError(HttpUnauthorized, Unauthorized, "Unauthorized to update vaccine.")

  /** Look the caller up, then refuse one without the super-admin flag with `denied`. */
  function RequireSuperAdmin(s: State, svc: Services, caller: string, denied: BusinessError): (r: Result<Admin>)
    ensures r.Ok? <==> IsSuperAdmin(s, caller)
    ensures caller !in s.admins ==> r == Err(Business(svc.adminNotFound))
    ensures caller in s.admins && r.Err? ==> r.failure == Business(denied)
  {
    match FindAdmin(s, svc, caller)
    case Err(f) => Err(f)
    case Ok(admin) => if !admin.superAdmin then Err(Business(denied)) else Ok(admin)
  }

  /** `create`: 201 CREATED with the new vaccine under a fresh id. */
  function Create(s: State, svc: Services, caller: string, body: Vaccine): (r: Reply)
    ensures caller !in s.admins ==> r == Reply(ErrorEnvelope(svc.adminNotFound), s)
    ensures caller in s.admins && !IsSuperAdmin(s, caller) ==> r == Reply(UnauthorizedEnvelope, s)
    ensures IsSuperAdmin(s, caller) ==>
              var id := s.vaccines.nextId;
              && r.envelope == Envelope(Success, HttpCreated, Some(VaccineBody(id, body)))
              && r.state.vaccines.rows == s.vaccines.rows[id := body]
              && r.state == s.(vaccines := r.state.vaccines)
              && (s.vaccines.Valid() ==> id !in s.vaccines.rows && r.state.vaccines.Valid())
  {
    match RequireSuperAdmin(s, svc, caller, CreateDenied)
    case Err(f) => Reply(CatchBusiness(f), s)
    case Ok(_) =>
      var (vaccines', id) := Insert(s.vaccines, body);
      Reply(Envelope(Success, HttpCreated, Some(VaccineBody(id, body))), s.(vaccines := vaccines'))
  }

  /** `update`: 200 OK with the overwritten vaccine. */
  function Update(s: State, svc: Services, caller: string, id: nat, body: Vaccine): (r: Reply)
    ensures caller !in s.admins ==> r == Reply(ErrorEnvelope(svc.adminNotFound), s)
    ensures caller in s.admins && !IsSuperAdmin(s, caller) ==> r == Reply(UnauthorizedEnvelope, s)
    ensures IsSuperAdmin(s, caller) && id !in s.vaccines.rows ==> r == Reply(ErrorEnvelope(svc.vaccineNotFound), s)
    ensures IsSuperAdmin(s, caller) && id in s.vaccines.rows ==>
              && r.envelope == Envelope(Success, HttpOk, Some(VaccineBody(id, body)))
              && r.state.vaccines == s.vaccines.(rows := s.vaccines.rows[id := body])
              && r.state == s.(vaccines := r.state.vaccines)
  {
    match RequireSuperAdmin(s, svc, caller, UpdateDenied)
    case Err(f) => Reply(CatchBusiness(f), s)
    case Ok(_) =>
      match Replace(s.vaccines, id, body)
      case None => Reply(CatchBusiness(Business(svc.vaccineNotFound)), s)
      case Some(vaccines') => Reply(Envelope(Success, HttpOk, Some(VaccineBody(id, body))), s.(vaccines := vaccines'))
  }

  /** `delete`: 200 OK with a null payload. */
  function Delete(s: State, svc: Services, caller: string, id: nat): (r: Reply)
    ensures caller !in s.admins ==> r == Reply(ErrorEnvelope(svc.adminNotFound), s)
    ensures caller in s.admins && !IsSuperAdmin(s, caller) ==> r == Reply(UnauthorizedEnvelope, s)
    ensures IsSuperAdmin(s, caller) && id !in s.vaccines.rows ==> r == Reply(ErrorEnvelope(svc.vaccineNotFound), s)
    ensures IsSuperAdmin(s, caller) && id in s.vaccines.rows ==>
              && r.envelope == Envelope(Success, HttpOk, None)
              && r.state.vaccines.rows.Keys == s.vaccines.rows.Keys - {id}
              && (forall k :: k in r.state.vaccines.rows ==> r.state.vaccines.rows[k] == s.vaccines.rows[k])
              && r.state == s.(vaccines := r.state.vaccines)
  {
    match RequireSuperAdmin(s, svc, caller, DeleteDenied)
    case Err(f) => Reply(CatchBusiness(f), s)
    case Ok(_) =>
      match Remove(s.vaccines, id)
      case None => Reply(CatchBusiness(Business(svc.vaccineNotFound)), s)
      case Some(vaccines') => Reply(Envelope(Success, HttpOk, None), s.(vaccines := vaccines'))
  }

  /** `findById`: no caller, no check. */
  function FindById(s: State, svc: Services, id: nat): (e: Envelope)
    ensures id in s.vaccines.rows ==> e == Envelope(Success, HttpOk, Some(VaccineBody(id, s.vaccines.rows[id])))
    ensures id !in s.vaccines.rows ==> e == ErrorEnvelope(svc.vaccineNotFound)
  {
    match FindVaccine(s, svc, id)
    case Err(f) => CatchBusiness(f)
    case Ok(vaccine) => Envelope(Success, HttpOk, Some(VaccineBody(id, vaccine)))
  }

  /** `findAll`: the whole catalog. */
  function FindAll(s: State): (e: Envelope)
    ensures e.code == Success && e.status == HttpOk && e.payload.Some? && e.payload.value.VaccineList?
    ensures e.payload.value.vaccines == s.vaccines.rows
  {
    Envelope(Success, HttpOk, Some(VaccineList(s.vaccines.rows)))
  }

  /** Creating a vaccine then reading it by the returned id yields the created record. */
  lemma CreatedVaccineReadsBack(s: State, svc: Services, caller: string, body: Vaccine)
    requires IsSuperAdmin(s, caller)
    ensures var r := Create(s, svc, caller, body);
            FindById(r.state, svc, r.envelope.payload.value.vaccineId)
            == Envelope(Success, HttpOk, Some(VaccineBody(r.envelope.payload.value.vaccineId, body)))
  {
  }

}
