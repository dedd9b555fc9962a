/**
  AuthService: resolution of a role-tagged principal string to a stored
  identity, and citizen registration against the external registry.
 */
module AuthService {
  import opened Options
  import opened JavaStrings
  import opened Errors
  import opened Domain
  import opened UserTable

  const AdminTag := "admin_"
  const UserTag := "user_"

  /** The store a principal string is looked up in, and the key. */
  datatype Target = AdminKey(username: string) | UserKey(nik: string) | NoUserTag

  /**
    The dispatch shared by `getInfoByPrincipal` and `loadUserByUsername`:
    a string starting with `admin_` goes to the admin store keyed by what
    follows the first `admin_`; any other string goes to the user store
    keyed by what follows the first `user_` anywhere in it, and a string
    with no `user_` has no second split part.
   */
  function PrincipalTarget(str: string): (t: Target)
    ensures StartsWith(str, AdminTag) ==> t == AdminKey(str[|AdminTag|..])
    ensures !StartsWith(str, AdminTag) ==> !t.AdminKey?
    ensures t.UserKey? ==> exists i: nat :: FirstOccurrence(str, UserTag, i) && t.nik == str[i + |UserTag|..]
    ensures t == NoUserTag <==> !StartsWith(str, AdminTag) && forall i: nat :: !OccursAt(str, UserTag, i)
  {
    if StartsWith(str, AdminTag) then
      PrefixIsFirstOccurrence(str, AdminTag);
      SplitOnceAt(str, AdminTag, 0);
      AdminKey(SplitOnce(str, AdminTag)[1])
    else
      var parts := SplitOnce(str, UserTag);
      if |parts| < 2 then NoUserTag else UserKey(parts[1])
  }

  /** A caller name tagged with `admin_` is looked up under exactly that name. */
  lemma TaggedAdminName(name: string)
    ensures PrincipalTarget(AdminTag + name) == AdminKey(name)
  {
  }

  /** Any other string is keyed by what follows its first `user_`, wherever that is. */
  lemma UserTagKey(str: string, i: nat)
    requires !StartsWith(str, AdminTag) && FirstOccurrence(str, UserTag, i)
    ensures PrincipalTarget(str) == UserKey(str[i + |UserTag|..])
  {
  }

  /** The identity stored under a target, if any. */
  function Lookup(admins: map<string, Admin>, users: Users, t: Target): (r: Option<Identity>)
    requires !t.NoUserTag?
    ensures r.Some? && r.value.AdminIdentity? <==> t.AdminKey? && t.username in admins
    ensures r.Some? && r.value.AdminIdentity? ==> r.value.admin == admins[t.username]
    ensures r.Some? && r.value.UserIdentity? <==> t.UserKey? && FindByNik(users.rows, t.nik).Some?
    ensures r.Some? && r.value.UserIdentity? ==> Some(r.value.user) == FindByNik(users.rows, t.nik)
  {
    match t
    case AdminKey(k) => if k in admins then Some(AdminIdentity(admins[k])) else None
    case UserKey(k) =>
      match FindByNik(users.rows, k)
      case None => None
      case Some(u) => Some(UserIdentity(u))
  }

  /** `getInfoByPrincipal`: resolve a tagged string; a miss is UNAUTHORIZED "Info not found!". */
  function GetInfoByPrincipal(admins: map<string, Admin>, users: Users, str: string): (r: Result<Identity>)
    ensures StartsWith(str, AdminTag) ==>
              (r.Ok? <==> str[|AdminTag|..] in admins)
              && (r.Ok? ==> r.value == AdminIdentity(admins[str[|AdminTag|..]]))
    ensures r.Ok? && r.value.AdminIdentity? ==> StartsWith(str, AdminTag)
    ensures !StartsWith(str, AdminTag) ==>
              forall i: nat {:trigger FirstOccurrence(str, UserTag, i)} :: FirstOccurrence(str, UserTag, i) ==>
                var found := FindByNik(users.rows, str[i + |UserTag|..]);
                (r.Ok? <==> found.Some?) && (r.Ok? ==> r.value == UserIdentity(found.value))
    ensures r.Err? ==> r.failure == Business(InfoNotFound) || r.failure == IndexOutOfBounds
    ensures r.Err? && r.failure == IndexOutOfBounds <==>
              !StartsWith(str, AdminTag) && forall i: nat :: !OccursAt(str, UserTag, i)
  {
    var t := PrincipalTarget(str);
    if t.NoUserTag? then Err(IndexOutOfBounds)
    else
      match Lookup(admins, users, t)
      case None => Err(Business(InfoNotFound))
      case Some(identity) => Ok(identity)
  }

  /** The `equalsIgnoreCase` test of one registry entry against the requested nik. */
  predicate MatchesNik(c: Citizen, nik: string) {
    EqualsIgnoreCase(c.nik, nik)
  }

  /** `i` is the last registry entry matching `nik`: the one a scan without `break` keeps. */
  predicate IsLastMatch(registry: seq<Citizen>, nik: string, i: int) {
    0 <= i < |registry| && MatchesNik(registry[i], nik)
    && forall j :: i < j < |registry| ==> !MatchesNik(registry[j], nik)
  }

  /** The index of the last registry entry matching `nik`, if any. */
  function LastMatch(registry: seq<Citizen>, nik: string): (r: Option<nat>)
    ensures r.Some? ==> IsLastMatch(registry, nik, r.value)
    ensures r.None? <==> forall j :: 0 <= j < |registry| ==> !MatchesNik(registry[j], nik)
  {
    if |registry| == 0 then None
    else if MatchesNik(registry[|registry| - 1], nik) then Some(|registry| - 1)
    else LastMatch(registry[..|registry| - 1], nik)
  }

  /** The registry loop as written: a forward scan that overwrites on every match. */
  method ScanRegistry(registry: seq<Citizen>, nik: string) returns (citizen: Option<Citizen>)
    ensures citizen.None? <==> forall j :: 0 <= j < |registry| ==> !MatchesNik(registry[j], nik)
    ensures citizen.Some? ==> exists i :: IsLastMatch(registry, nik, i) && citizen.value == registry[i]
  {
    citizen := None;
    ghost var at := -1;
    for k := 0 to |registry|
      invariant -1 <= at < k
      invariant citizen.None? <==> at == -1
      invariant at == -1 ==> forall j :: 0 <= j < k ==> !MatchesNik(registry[j], nik)
      invariant at >= 0 ==> citizen == Some(registry[at]) && MatchesNik(registry[at], nik)
      invariant at >= 0 ==> forall j :: at < j < k ==> !MatchesNik(registry[j], nik)
    {
      if EqualsIgnoreCase(registry[k].nik, nik) {
        citizen := Some(registry[k]);
        at := k;
      }
    }
    if at >= 0 {
      assert IsLastMatch(registry, nik, at);
    }
  }

  /** The outcome of `register` together with the users table afterwards. */
  datatype Registration = Registration(outcome: Result<User>, users: Users)

  /**
    `register`: reject a nik already stored, then reject a nik the registry
    does not know (case-insensitively), else store a new active account whose
    gender and date of birth come from the last matching registry entry and
    whose password is the encoder's output. `encode` is the password
    encoder, applied to the request's password field.
   */
  function Register(users: Users, registry: seq<Citizen>, req: UsersRequest, encode: Option<string> -> string)
    : (r: Registration)
    ensures FindByNik(users.rows, req.nik).Some? ==> r == Registration(Err(Business(UserAlreadyExists)), users)
    ensures FindByNik(users.rows, req.nik).None? && (forall j :: 0 <= j < |registry| ==> !MatchesNik(registry[j], req.nik))
            ==> r == Registration(Err(Business(NikNotFound)), users)
    ensures r.outcome.Err? ==> r.users == users
    ensures r.outcome.Ok? <==>
              FindByNik(users.rows, req.nik).None? && exists j :: 0 <= j < |registry| && MatchesNik(registry[j], req.nik)
    ensures r.outcome.Ok? ==> FindByNik(users.rows, req.nik).None?
    ensures r.outcome.Ok? ==>
              var u := r.outcome.value;
              && u.nik == req.nik && u.name == req.name && u.phoneNumber == req.phoneNumber
              && u.active && u.password == encode(req.password)
              && (forall i :: IsLastMatch(registry, req.nik, i) ==>
                    u.gender == registry[i].gender && u.dateOfBirth == registry[i].dateOfBirth)
              && u.id == users.nextId
              && r.users == Users(users.rows + [u], users.nextId + 1)
  {
    if FindByNik(users.rows, req.nik).Some? then
      Registration(Err(Business(UserAlreadyExists)), users)
    else
      match LastMatch(registry, req.nik)
      case None => Registration(Err(Business(NikNotFound)), users)
      case Some(i) =>
        var citizen := registry[i];
        var account := User(0, req.nik, req.name, req.phoneNumber, citizen.gender, citizen.dateOfBirth,
                          true, encode(req.password));
        var (users', saved) := Save(users, account);
        Registration(Ok(saved), users')
  }

  /**
    A worked registration: a nik the store lacks and the registry knows (in
    another case) gives an active account with the registry's demographics.
   */
  lemma RegistrationExample(encode: Option<string> -> string)
    ensures var registry := [Citizen("3201AB", "Alice", "F", "1990-01-01")];
            var req := UsersRequest(None, "3201ab", "Alice", "0812", None, None, Some("secret"));
            var r := Register(Users([], 1), registry, req, encode);
            && r.outcome == Ok(User(1, "3201ab", "Alice", "0812", "F", "1990-01-01", true, encode(Some("secret"))))
            && r.users.rows == [r.outcome.value]
  {
  }

  /** A rejected duplicate never looks at the registry. */
  lemma DuplicateIgnoresRegistry(users: Users, registry1: seq<Citizen>, registry2: seq<Citizen>,
                                 req: UsersRequest, encode: Option<string> -> string)
    requires FindByNik(users.rows, req.nik).Some?
    ensures Register(users, registry1, req, encode) == Register(users, registry2, req, encode)
  {
  }

  /** The request's own gender and date of birth play no part in registration. */
  lemma RequestDemographicsIgnored(users: Users, registry: seq<Citizen>, req1: UsersRequest, req2: UsersRequest,
                                   encode: Option<string> -> string)
    requires req1 == req2.(gender := req1.gender, dateOfBirth := req1.dateOfBirth)
    ensures Register(users, registry, req1, encode) == Register(users, registry, req2, encode)
  {
  }

  /** A nik just registered is taken: registering it again is rejected as a duplicate. */
  lemma {:induction false} RegisterTwiceRejected(users: Users, registry: seq<Citizen>, req: UsersRequest,
                                                 again: UsersRequest, encode: Option<string> -> string)
    requires Register(users, registry, req, encode).outcome.Ok?
    requires again.nik == req.nik
    ensures Register(Register(users, registry, req, encode).users, registry, again, encode)
            == Registration(Err(Business(UserAlreadyExists)), Register(users, registry, req, encode).users)
  {
    var r := Register(users, registry, req, encode);
    var u := r.outcome.value;
    FindByNikAppend(users.rows, u);
  }

  /** A registered citizen is what `user_` + nik resolves to afterwards. */
  lemma {:induction false} RegisteredUserResolves(admins: map<string, Admin>, users: Users,
                                                  registry: seq<Citizen>, req: UsersRequest,
                                                  encode: Option<string> -> string)
    requires Register(users, registry, req, encode).outcome.Ok?
    ensures var r := Register(users, registry, req, encode);
            GetInfoByPrincipal(admins, r.users, UserTag + req.nik) == Ok(UserIdentity(r.outcome.value))
  {
    var r := Register(users, registry, req, encode);
    var u := r.outcome.value;
    var str := UserTag + req.nik;
    FindByNikAppend(users.rows, u);
    assert str[0] != AdminTag[0];
    assert !StartsWith(str, AdminTag);
    PrefixIsFirstOccurrence(str, UserTag);
    assert str[|UserTag|..] == req.nik;
    UserTagKey(str, 0);
  }

}
