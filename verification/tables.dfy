/**
  A repository table with an auto-increment key, standing in for the
  persistence behind the facility, vaccine and distribution services.
 */
module Tables {
  import opened Options

  datatype Table<T> = Table(rows: map<nat, T>, nextId: nat) {
    /** Every stored key was issued before the next one will be. */
    ghost predicate Valid() {
      forall id :: id in rows ==> id < nextId
    }
  }

  /** `save` of a new entity: it gets the next key. */
  function Insert<T>(t: Table<T>, v: T): (r: (Table<T>, nat))
    ensures r.1 == t.nextId && r.0.nextId > r.1
    ensures r.0.rows == t.rows[r.1 := v]
    ensures t.Valid() ==> r.0.Valid() && r.1 !in t.rows && |r.0.rows| == |t.rows| + 1
  {
    (Table(t.rows[t.nextId := v], t.nextId + 1), t.nextId)
  }

  /** Load by key then overwrite; `None` when the key is absent. */
  function Replace<T>(t: Table<T>, id: nat, v: T): (r: Option<Table<T>>)
    ensures r.Some? <==> id in t.rows
    ensures r.Some? ==> r.value.rows == t.rows[id := v] && r.value.nextId == t.nextId
    ensures r.Some? && t.Valid() ==> r.value.Valid() && r.value.rows.Keys == t.rows.Keys
  {
    if id in t.rows then Some(Table(t.rows[id := v], t.nextId)) else None
  }

  /** Load by key then remove; `None` when the key is absent. */
  function Remove<T>(t: Table<T>, id: nat): (r: Option<Table<T>>)
    ensures r.Some? <==> id in t.rows
    ensures r.Some? ==> r.value.rows.Keys == t.rows.Keys - {id} && r.value.nextId == t.nextId
    ensures r.Some? ==> forall k :: k in r.value.rows ==> r.value.rows[k] == t.rows[k]
    ensures r.Some? && t.Valid() ==> r.value.Valid()
  {
    if id in t.rows then Some(Table(t.rows - {id}, t.nextId)) else None
  }

  /** The rows whose value satisfies `keep`: a listing filtered by one equality. */
  function Filter<T>(t: Table<T>, keep: T -> bool): (m: map<nat, T>)
    ensures forall k :: k in m <==> k in t.rows && keep(t.rows[k])
    ensures forall k :: k in m ==> m[k] == t.rows[k]
  {
    map k | k in t.rows && keep(t.rows[k]) :: t.rows[k]
  }
}
