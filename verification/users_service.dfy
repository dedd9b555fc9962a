/**
  UsersService: the Spring `UserDetailsService` lookup and the two
  read-only projections of stored accounts.
 */
module UsersService {
  import opened Options
  import opened JavaStrings
  import opened Errors
  import opened Domain
  import opened UserTable
  import opened AuthService

  /**
    `loadUserByUsername`: the same dispatch as `getInfoByPrincipal`, but a
    miss is a UsernameNotFound failure "Credentials not found".
   */
  function LoadUserByUsername(admins: map<string, Admin>, users: Users, str: string): (r: Result<Identity>)
    ensures r.Err? ==> r.failure == UsernameNotFound(CredentialsNotFound) || r.failure == IndexOutOfBounds
    ensures r == Err(IndexOutOfBounds) <==> PrincipalTarget(str).NoUserTag?
    ensures !PrincipalTarget(str).NoUserTag? ==> (r.Ok? <==> Lookup(admins, users, PrincipalTarget(str)).Some?)
    ensures r.Ok? ==> !PrincipalTarget(str).NoUserTag? && Some(r.value) == Lookup(admins, users, PrincipalTarget(str))
  {
    var t := PrincipalTarget(str);
    if t.NoUserTag? then Err(IndexOutOfBounds)
    else
      match Lookup(admins, users, t)
      case None => Err(UsernameNotFound(CredentialsNotFound))
      case Some(identity) => Ok(identity)
  }

  /**
    Both resolvers choose the same store and key for every string: they
    succeed on the same strings with the same record, fail without a
    `user_` tag alike, and differ only in the kind of error a miss raises.
   */
  lemma LoadUserAgreesWithGetInfo(admins: map<string, Admin>, users: Users, str: string)
    ensures var a := GetInfoByPrincipal(admins, users, str);
            var b := LoadUserByUsername(admins, users, str);
            && (a.Ok? <==> b.Ok?)
            && (a.Ok? ==> a.value == b.value)
            && (a.Err? && a.failure == IndexOutOfBounds <==> b.Err? && b.failure == IndexOutOfBounds)
            && (a.Err? && a.failure == Business(InfoNotFound) <==>
                b.Err? && b.failure == UsernameNotFound(CredentialsNotFound))
  {
  }

  /** `v` is the transfer object `find` builds from `u`: no password, no active flag. */
  predicate ProjectionOf(v: UsersRequest, u: User) {
    && v.id == Some(u.id)
    && v.nik == u.nik
    && v.name == u.name
    && v.phoneNumber == u.phoneNumber
    && v.gender == Some(u.gender)
    && v.dateOfBirth == Some(u.dateOfBirth)
    && v.password.None?
  }

  function Project(u: User): UsersRequest {
    UsersRequest(Some(u.id), u.nik, u.name, u.phoneNumber, Some(u.gender), Some(u.dateOfBirth), None)
  }

  /** `find(id)`: the projection of the stored row with that id, or BAD_REQUEST "User not found!". */
  function Find(users: Users, id: nat): (r: Result<UsersRequest>)
    ensures r.Err? <==> forall j :: 0 <= j < |users.rows| ==> users.rows[j].id != id
    ensures r.Err? ==> r.failure == Business(UserNotFound)
    ensures r.Ok? ==> exists j :: 0 <= j < |users.rows| && users.rows[j].id == id && ProjectionOf(r.value, users.rows[j])
  {
    match FindById(users.rows, id)
    case None => Err(Business(UserNotFound))
    case Some(u) => Ok(Project(u))
  }

  /** `find()`: every stored row projected, in listing order. */
  method FindAll(users: Users) returns (list: seq<UsersRequest>)
    ensures |list| == |users.rows|
    ensures forall i :: 0 <= i < |list| ==> ProjectionOf(list[i], users.rows[i])
  {
    list := [];
    for k := 0 to |users.rows|
      invariant |list| == k
      invariant forall i :: 0 <= i < k ==> ProjectionOf(list[i], users.rows[i])
    {
      list := list + [Project(users.rows[k])];
    }
  }

}
