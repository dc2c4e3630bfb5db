/** The sign-up and login endpoints: their input guards and the credential
    lookup over the Users table. Password hashing and token signing are not
    part of this model. */
module Auth {
  import opened Wrappers
  import opened Bookings

  /** The body of a sign-up request; `None` is an absent member. */
  datatype SignupRequest = SignupRequest(
    fullName: Option<string>, phoneNumber: Option<string>, email: Option<string>,
    password: Option<string>, userRole: Option<string>)

  /** The values the sign-up inserts into Users. */
  datatype NewUser = NewUser(fullName: string, phoneNumber: string, email: string, password: string, userRole: string)

  datatype SignupOutcome = SignupRejected | SignupAccepted(user: NewUser)

  /** `POST /api/signup` up to the insert: 400 unless all four fields are truthy;
      the role defaults to "User" when absent. */
  function Signup(req: SignupRequest): (r: SignupOutcome)
    ensures r.SignupRejected? <==>
      !(Present(req.fullName) && Present(req.phoneNumber) && Present(req.email) && Present(req.password))
    ensures r.SignupAccepted? ==>
      && r.user.fullName == req.fullName.value && r.user.phoneNumber == req.phoneNumber.value
      && r.user.email == req.email.value && r.user.password == req.password.value
      && r.user.userRole == (if req.userRole.None? then "User" else req.userRole.value)
  {
    if !Present(req.fullName) || !Present(req.phoneNumber) || !Present(req.email) || !Present(req.password) then
      SignupRejected
    else
      SignupAccepted(NewUser(req.fullName.value, req.phoneNumber.value, req.email.value, req.password.value,
                             if req.userRole.Some? then req.userRole.value else "User"))
  }

  /** A row of Users. */
  datatype UserRow = UserRow(userId: int, fullName: string, phoneNumber: string, email: string, password: string, userRole: string)

  /** The row as stored once the database assigns it `userId`. */
  function Stored(u: NewUser, userId: int): UserRow
  {
    UserRow(userId, u.fullName, u.phoneNumber, u.email, u.password, u.userRole)
  }

  /** The login query's condition: `(Email = id OR FullName = id) AND Password = pw`. */
  predicate Matches(u: UserRow, identifier: string, password: string)
  {
    (u.email == identifier || u.fullName == identifier) && u.password == password
  }

  /** Row `i` matches and no earlier row does. */
  predicate FirstMatchAt(users: seq<UserRow>, i: int, identifier: string, password: string)
  {
    && 0 <= i < |users| && Matches(users[i], identifier, password)
    && forall j :: 0 <= j < i ==> !Matches(users[j], identifier, password)
  }

  /** The first row of the query's result set, in table order. */
  function FirstMatch(users: seq<UserRow>, identifier: string, password: string): (r: Option<UserRow>)
    ensures r.None? <==> forall i :: 0 <= i < |users| ==> !Matches(users[i], identifier, password)
    ensures r.Some? ==> exists i :: FirstMatchAt(users, i, identifier, password) && users[i] == r.value
  {
    if users == [] then None
    else if Matches(users[0], identifier, password) then
      assert FirstMatchAt(users, 0, identifier, password);
      Some(users[0])
    else
      var r := FirstMatch(users[1..], identifier, password);
      assert r.Some? ==> exists i :: FirstMatchAt(users, i, identifier, password) && users[i] == r.value by {
        if r.Some? {
          var i :| FirstMatchAt(users[1..], i, identifier, password) && users[1..][i] == r.value;
          forall j | 0 <= j < i + 1 ensures !Matches(users[j], identifier, password) {
            if j > 0 { assert users[j] == users[1..][j - 1]; }
          }
          assert FirstMatchAt(users, i + 1, identifier, password);
        }
      }
      r
  }

  datatype LoginOutcome = LoginBadRequest | LoginUnauthorized | LoginOk(user: UserRow)

  /** `POST /api/login`: 400 without both fields, 401 when no row matches, else the first match. */
  function Login(users: seq<UserRow>, identifier: Option<string>, password: Option<string>): (r: LoginOutcome)
    ensures r.LoginBadRequest? <==> !Present(identifier) || !Present(password)
    ensures r.LoginUnauthorized? <==>
      Present(identifier) && Present(password)
      && forall i :: 0 <= i < |users| ==> !Matches(users[i], identifier.value, password.value)
    ensures r.LoginOk? ==> exists i :: FirstMatchAt(users, i, identifier.value, password.value) && users[i] == r.user
  {
    if !Present(identifier) || !Present(password) then LoginBadRequest
    else match FirstMatch(users, identifier.value, password.value)
      case None => LoginUnauthorized
      case Some(u) => LoginOk(u)
  }

  /** A user who signed up can log in with their email and password, whatever
      rows the table held before. */
  lemma SignupThenLogin(users: seq<UserRow>, req: SignupRequest, userId: int)
    requires Signup(req).SignupAccepted?
    ensures Login(users + [Stored(Signup(req).user, userId)], req.email, req.password).LoginOk?
  {
    var all := users + [Stored(Signup(req).user, userId)];
    assert Matches(all[|users|], req.email.value, req.password.value);
  }
}
