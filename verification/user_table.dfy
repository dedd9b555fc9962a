/**
  The users repository: rows in listing order with an auto-increment id.
  A sequence rather than a map, because `findAll` returns the rows in
  order and `getDistinctTopByNik` returns the first row with a given nik.
 */
module UserTable {
  import opened Options
  import opened Domain

  datatype Users = Users(rows: seq<User>, nextId: nat) {
    /** Every stored id was issued before the next one will be. */
    ghost predicate Valid() {
      forall i :: 0 <= i < |rows| ==> rows[i].id < nextId
    }
  }

  /** Index of the first row satisfying `p`. */
  function First(rows: seq<User>, p: User -> bool): (r: Option<nat>)
    ensures r.Some? ==> r.value < |rows| && p(rows[r.value])
    ensures r.Some? ==> forall j :: 0 <= j < r.value ==> !p(rows[j])
    ensures r.None? <==> forall j :: 0 <= j < |rows| ==> !p(rows[j])
  {
    if |rows| == 0 then None
    else if p(rows[0]) then Some(0)
    else match First(rows[1..], p)
      case None => None
      case Some(i) => Some(i + 1)
  }

  /** `getDistinctTopByNik`: the first row whose nik equals `nik` exactly. */
  function FindByNik(rows: seq<User>, nik: string): (r: Option<User>)
    ensures r.Some? ==> r.value in rows && r.value.nik == nik
    ensures r.None? <==> forall j :: 0 <= j < |rows| ==> rows[j].nik != nik
    ensures r.Some? ==>
              exists i :: 0 <= i < |rows| && rows[i] == r.value && forall j :: 0 <= j < i ==> rows[j].nik != nik
  {
    match First(rows, (u: User) => u.nik == nik)
    case None => None
    case Some(i) => Some(rows[i])
  }

  /** `findById` */
  function FindById(rows: seq<User>, id: nat): (r: Option<User>)
    ensures r.Some? ==> r.value in rows && r.value.id == id
    ensures r.None? <==> forall j :: 0 <= j < |rows| ==> rows[j].id != id
  {
    match First(rows, (u: User) => u.id == id)
    case None => None
    case Some(i) => Some(rows[i])
  }

  /** `save` of a new user: it gets the next id and is appended. */
  function Save(t: Users, u: User): (r: (Users, User))
    ensures r.1 == u.(id := t.nextId)
    ensures r.0.rows == t.rows + [r.1] && r.0.nextId == t.nextId + 1
    ensures t.Valid() ==> r.0.Valid()
  {
    var saved := u.(id := t.nextId);
    (Users(t.rows + [saved], t.nextId + 1), saved)
  }

  /** A row appended after every earlier row with the same nik is what a nik lookup then finds. */
  lemma {:induction false} FindByNikAppend(rows: seq<User>, u: User)
    requires forall j :: 0 <= j < |rows| ==> rows[j].nik != u.nik
    ensures FindByNik(rows + [u], u.nik) == Some(u)
  {
    var all := rows + [u];
    var r := FindByNik(all, u.nik);
    assert all[|rows|] == u;
    assert r.Some?;
    var i :| 0 <= i < |all| && all[i] == r.value && forall j :: 0 <= j < i ==> all[j].nik != u.nik;
    assert forall j :: 0 <= j < |rows| ==> all[j] == rows[j];
    assert i == |rows|;
  }

}
