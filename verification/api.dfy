/**
  The write and read endpoints of both controllers behind one dispatcher,
  and the properties that hold across all of them: only an authorized write
  changes the state, a failed request changes nothing and carries no
  payload, reads consult no identity, and the stores stay well formed.
 */
module Api {
  import opened Options
  import opened Errors
  import opened Domain
  import opened Tables
  import opened UserTable
  import opened Backend
  import HF = HealthFacilitiesController
  import VC = VaccineController

  /** One request to one endpoint, with the caller's principal name where the endpoint takes one. */
  datatype Request =
    | CreateFacility(caller: string, facility: Facility)
    | UpdateFacility(caller: string, id: nat, facility: Facility)
    | DeleteFacility(caller: string, id: nat)
    | GetFacility(id: nat)
    | ListFacilities(cityId: Option<nat>)
    | ListDistributions(id: nat)
    | CreateDistribution(caller: string, id: nat, distribution: DistributionRequest)
    | CreateVaccine(caller: string, vaccine: Vaccine)
    | UpdateVaccine(caller: string, id: nat, vaccine: Vaccine)
    | DeleteVaccine(caller: string, id: nat)
    | GetVaccine(id: nat)
    | ListVaccines
  {
    predicate IsRead() {
      GetFacility? || ListFacilities? || ListDistributions? || GetVaccine? || ListVaccines?
    }
  }

  function Handle(s: State, svc: Services, req: Request): Reply {
    match req
    case CreateFacility(c, f) => HF.Create(s, svc, c, f)
    case UpdateFacility(c, id, f) => HF.Update(s, svc, c, id, f)
    case DeleteFacility(c, id) => HF.Delete(s, svc, c, id)
    case GetFacility(id) => Reply(HF.FindById(s, svc, id), s)
    case ListFacilities(cityId) => Reply(HF.FindAll(s, cityId), s)
    case ListDistributions(id) => Reply(HF.GetAllVaccines(s, id), s)
    case CreateDistribution(c, id, d) => HF.CreateVaccineDistribution(s, svc, c, id, d)
    case CreateVaccine(c, v) => VC.Create(s, svc, c, v)
    case UpdateVaccine(c, id, v) => VC.Update(s, svc, c, id, v)
    case DeleteVaccine(c, id) => VC.Delete(s, svc, c, id)
    case GetVaccine(id) => Reply(VC.FindById(s, svc, id), s)
    case ListVaccines => Reply(VC.FindAll(s), s)
  }

  /**
    The authorization policy the endpoints are meant to enforce: catalog
    writes need a super-admin; a distribution needs a super-admin or the
    admin owning the (existing) facility; reads need nobody.
   */
  predicate Authorized(s: State, req: Request) {
    match req
    case CreateFacility(c, _) => IsSuperAdmin(s, c)
    case UpdateFacility(c, _, _) => IsSuperAdmin(s, c)
    case DeleteFacility(c, _) => IsSuperAdmin(s, c)
    case CreateVaccine(c, _) => IsSuperAdmin(s, c)
    case UpdateVaccine(c, _, _) => IsSuperAdmin(s, c)
    case DeleteVaccine(c, _) => IsSuperAdmin(s, c)
    case CreateDistribution(c, id, _) =>
      IsSuperAdmin(s, c)
      || (c in s.admins && id in s.facilities.rows && s.facilities.rows[id].owner == Some(s.admins[c].id))
    case _ => true
  }

  /** Only a write the policy allows changes anything. */
  lemma OnlyAuthorizedWritesMutate(s: State, svc: Services, req: Request)
    ensures Handle(s, svc, req).state != s ==> !req.IsRead() && Authorized(s, req)
  {
  }

  /** A write the policy refuses is answered with an error, no payload and no change. */
  lemma UnauthorizedWritesRejected(s: State, svc: Services, req: Request)
    requires svc.WellFormed()
    requires !Authorized(s, req)
    ensures var r := Handle(s, svc, req);
            r.state == s && !r.envelope.status.IsSuccess() && r.envelope.payload.None?
  {
  }

  /** A request answered with an error status changed nothing and carries a null payload. */
  lemma FailuresLeaveStateUnchanged(s: State, svc: Services, req: Request)
    ensures var r := Handle(s, svc, req);
            !r.envelope.status.IsSuccess() ==> r.state == s && r.envelope.payload.None?
  {
  }

  /** Reads never change the state, and their answer does not depend on who is stored as admin or user. */
  lemma ReadsIgnoreIdentity(s: State, svc: Services, req: Request, admins: map<string, Admin>, users: Users)
    requires req.IsRead()
    ensures Handle(s, svc, req).state == s
    ensures Handle(s.(admins := admins, users := users), svc, req).envelope == Handle(s, svc, req).envelope
  {
  }

  /** Every endpoint keeps every table's keys below its next id. */
  lemma HandlePreservesValid(s: State, svc: Services, req: Request)
    requires s.Valid()
    ensures Handle(s, svc, req).state.Valid()
  {
  }

  /**
    Where the code is stricter than the policy: a facility without an owning
    admin fails every distribution with an internal error, a super-admin's too,
    because the owner is dereferenced before the super-admin flag is read.
   */
  lemma NullOwnerBlocksSuperAdmin(s: State, svc: Services, caller: string, id: nat, d: DistributionRequest)
    requires IsSuperAdmin(s, caller) && id in s.facilities.rows && s.facilities.rows[id].owner.None?
    ensures Authorized(s, CreateDistribution(caller, id, d))
    ensures Handle(s, svc, CreateDistribution(caller, id, d)) == Reply(InternalErrorEnvelope, s)
  {
  }

}
