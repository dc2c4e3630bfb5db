/** The client-side user list and its three reducers. A user is an optional
    numeric `id` beside its other fields. */
module UserManager {
  import opened Wrappers
  import opened Seqs

  /** A user object: `id` (absent when the object has none) and its other fields. */
  datatype User = User(id: Option<int>, fields: map<string, string>)

  /** `{ ...user, ...updatedUser }`: the update's members win, the others stay. */
  function Merge(u: User, update: User): (r: User)
    ensures r.id == if update.id.Some? then update.id else u.id
    ensures r.fields.Keys == u.fields.Keys + update.fields.Keys
    ensures forall f :: f in update.fields ==> r.fields[f] == update.fields[f]
    ensures forall f :: f in u.fields && f !in update.fields ==> r.fields[f] == u.fields[f]
  {
    User(if update.id.Some? then update.id else u.id, u.fields + update.fields)
  }

  /** `addUser`: append `{ id: length + 1, ...newUser }`. */
  function Added(users: seq<User>, newUser: User): (r: seq<User>)
    ensures |r| == |users| + 1 && r[..|users|] == users
    ensures r[|users|].fields == newUser.fields
    ensures r[|users|].id == if newUser.id.Some? then newUser.id else Some(|users| + 1)
  {
    users + [User(if newUser.id.Some? then newUser.id else Some(|users| + 1), newUser.fields)]
  }

  /** `editUser`: merge `update` into every user whose id is `id`. */
  function Edited(users: seq<User>, id: int, update: User): (r: seq<User>)
    ensures |r| == |users|
    ensures forall i :: 0 <= i < |users| ==>
      r[i] == if users[i].id == Some(id) then Merge(users[i], update) else users[i]
  {
    if users == [] then []
    else [if users[0].id == Some(id) then Merge(users[0], update) else users[0]] + Edited(users[1..], id, update)
  }

  /** `deleteUser`: keep the users whose id is not `id`. */
  function Deleted(users: seq<User>, id: int): (r: seq<User>)
    ensures forall i :: 0 <= i < |r| ==> r[i].id != Some(id) && r[i] in users
    ensures forall i :: 0 <= i < |users| && users[i].id != Some(id) ==> users[i] in r
  {
    Filter((u: User) => u.id != Some(id), users)
  }

  /** Editing an id no user carries changes nothing. */
  lemma EditAbsentId(users: seq<User>, id: int, update: User)
    requires forall i :: 0 <= i < |users| ==> users[i].id != Some(id)
    ensures Edited(users, id, update) == users
  {
  }

  /** Deleting an id no user carries changes nothing. */
  lemma DeleteAbsentId(users: seq<User>, id: int)
    requires forall i :: 0 <= i < |users| ==> users[i].id != Some(id)
    ensures Deleted(users, id) == users
  {
    FilterKeepsAll((u: User) => u.id != Some(id), users);
  }

  /** Deleting keeps the survivors in order: it distributes over concatenation. */
  lemma DeleteKeepsOrder(a: seq<User>, b: seq<User>, id: int)
    ensures Deleted(a + b, id) == Deleted(a, id) + Deleted(b, id)
  {
    FilterConcat((u: User) => u.id != Some(id), a, b);
  }

  /** Deleting the id just given to a new user undoes the addition, provided no
      earlier user carried that id. */
  lemma DeleteUndoesAdd(users: seq<User>, newUser: User)
    requires newUser.id.None?
    requires forall i :: 0 <= i < |users| ==> users[i].id != Some(|users| + 1)
    ensures Deleted(Added(users, newUser), |users| + 1) == users
  {
    var added := Added(users, newUser);
    assert added == users + [added[|users|]];
    DeleteKeepsOrder(users, [added[|users|]], |users| + 1);
    DeleteAbsentId(users, |users| + 1);
  }

  /** Ids are not unique: adding two users, deleting the first and adding a third
      gives the survivor and the newcomer the same id. */
  lemma IdsCanRepeat(a: User, b: User, c: User)
    requires a.id.None? && b.id.None? && c.id.None?
    ensures var s := Added(Deleted(Added(Added([], a), b), 1), c);
      |s| == 2 && s[0].id == s[1].id == Some(2)
  {
  }

  /** The `users` state of the hook. */
  class UserList {
    var users: seq<User>

    constructor ()
      ensures users == []
    {
      users := [];
    }

    method AddUser(newUser: User)
      modifies this
      ensures users == Added(old(users), newUser)
    {
      users := Added(users, newUser);
    }

    method EditUser(id: int, update: User)
      modifies this
      ensures users == Edited(old(users), id, update)
    {
      users := Edited(users, id, update);
    }

    method DeleteUser(id: int)
      modifies this
      ensures users == Deleted(old(users), id)
    {
      users := Deleted(users, id);
    }
  }
}
