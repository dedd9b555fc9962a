/** The records the core reads and writes. */
module Domain {
  import opened Options

  /** A stored administrator; `superAdmin` is the `isSuperAdmin` flag. */
  datatype Admin = Admin(id: nat, username: string, password: string, superAdmin: bool)

  /** A stored citizen account (`Users`). */
  datatype User = User(
    id: nat,
    nik: string,
    name: string,
    phoneNumber: string,
    gender: string,
    dateOfBirth: string,
    active: bool,
    password: string)

  /**
    The `UsersRequest` transfer object: the registration body, and the
    projection `find` returns. Fields the builder leaves unset are `None`.
   */
  datatype UsersRequest = UsersRequest(
    id: Option<nat>,
    nik: string,
    name: string,
    phoneNumber: string,
    gender: Option<string>,
    dateOfBirth: Option<string>,
    password: Option<string>)

  /** One entry of the external citizen registry (`CitizenResponse`). */
  datatype Citizen = Citizen(nik: string, name: string, gender: string, dateOfBirth: string)

  /** A health facility; `owner` is the owning admin's id, null until assigned. */
  datatype Facility = Facility(name: string, cityId: nat, owner: Option<nat>)

  datatype Vaccine = Vaccine(name: string)

  /** The distribution body; `facility` is the facility reference it names, if any. */
  datatype DistributionRequest = DistributionRequest(facility: Option<nat>, vaccineId: nat, quantity: int)

  /** A recorded stock allocation of a vaccine to a facility. */
  datatype Distribution = Distribution(facilityId: nat, vaccineId: nat, quantity: int)

  /** What principal resolution returns: an admin or a citizen account. */
  datatype Identity = AdminIdentity(admin: Admin) | UserIdentity(user: User)

}
