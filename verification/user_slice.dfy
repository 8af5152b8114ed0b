/**
 The `user` slice of the store: the logged-in user object, or `null`.
 */
module UserSlice {
  import opened Outcomes
  import opened Records

  datatype State = State(user: Option<Record>)

  datatype Action = AddUser(payload: Option<Record>) | RemoveUser | UpdateUser(patch: Option<Record>)

  /** Nobody is logged in before anything is dispatched. */
  function Initial(): (s: State)
    ensures s.user.None?
  {
    State(None)
  }

  /** `addUser(p)`: the stored user becomes `p` itself, whatever was there. */
  function Add(s: State, payload: Option<Record>): (r: State)
    ensures r.user == payload
  {
    State(payload)
  }

  /** `removeUser()`: logged out. */
  function Remove(s: State): (r: State)
    ensures r.user.None?
  {
    State(None)
  }

  /** `updateUser(p)`: `{ ...user, ...p }`. Keys of `p` take `p`'s values, every
      other key keeps its value, and the user is an object afterwards even if
      it was `null`. */
  function Update(s: State, patch: Option<Record>): (r: State)
    ensures r.user.Some?
    ensures forall k :: k in Spread(patch) ==> Get(r.user, k) == Some(Spread(patch)[k])
    ensures forall k :: k !in Spread(patch) ==> Get(r.user, k) == Get(s.user, k)
    ensures s.user.None? ==> r.user.value.Keys == Spread(patch).Keys
  {
    State(Some(Merge(s.user, patch)))
  }

  /** The reducer: one dispatched action applied to the slice. */
  function Reduce(s: State, a: Action): (r: State)
    ensures a.AddUser? ==> r.user == a.payload
    ensures a.RemoveUser? ==> r.user.None?
    ensures a.UpdateUser? ==> r.user.Some? && forall k :: k in Spread(a.patch) ==> Get(r.user, k) == Some(Spread(a.patch)[k])
    ensures a.UpdateUser? ==> forall k :: k !in Spread(a.patch) ==> Get(r.user, k) == Get(s.user, k)
  {
    match a
    case AddUser(p) => Add(s, p)
    case RemoveUser => Remove(s)
    case UpdateUser(p) => Update(s, p)
  }

  /** Logging out twice is the same as logging out once. */
  lemma RemoveIdempotent(s: State)
    ensures Remove(Remove(s)) == Remove(s)
  {
  }

  /** An empty patch leaves a logged-in user exactly as it was. */
  lemma UpdateEmptyKeepsUser(s: State)
    requires s.user.Some?
    ensures Update(s, Some(map[])) == s
  {
    MergeEmpty(s.user.value);
  }
}
