/** The user service of internal/services/user/service.go: it hides store errors behind
    fixed messages and copies store records into responses. Password hashing (bcrypt)
    is an input: the outcome of hashing the request's password. */
module UserService {
  import opened Results
  import opened UserStore

  datatype CreateUserRequest = CreateUserRequest(email: string, password: string)

  datatype UserResponse = UserResponse(id: int, email: string, role: string)

  /** CreateUser: "password hashing failed" when hashing fails, "user already exists or
      database error" for any store error, and otherwise the new user is in the directory
      with the hash. The directory changes only on success. */
  function CreateUser(d: Directory, req: CreateUserRequest, hashed: Result<string>, fault: Option<string>)
    : (r: (Directory, Option<string>))
    ensures r.1.Some? ==> r.0 == d
    ensures hashed.Err? ==> r.1 == Some("password hashing failed")
    ensures hashed.Ok? && (fault.Some? || exists u :: u in d.rows && u.email == req.email) ==>
              r.1 == Some("user already exists or database error")
    ensures r.1.None? <==> hashed.Ok? && fault.None? && forall u :: u in d.rows ==> u.email != req.email
    ensures r.1.None? ==> r.0.rows == d.rows + [User(d.nextID, req.email, hashed.value, DefaultRole)]
  {
    if hashed.Err? then (d, Some("password hashing failed"))
    else
      var (d', created) := UserStore.Create(d, req.email, hashed.value, fault);
      if created.Err? then (d, Some("user already exists or database error"))
      else (d', None)
  }

  /** GetUserByID: "user not found" for any store error, otherwise the user's ID, Email and Role. */
  function GetUserByID(d: Directory, userID: int, fault: Option<string>): (r: Result<UserResponse>)
    ensures r.Err? ==> r.error == "user not found"
    ensures r.Ok? <==> fault.None? && exists u :: u in d.rows && u.id == userID
    ensures r.Ok? ==> r.value.id == userID
                      && exists u :: u in d.rows && u.id == userID && u.email == r.value.email && u.role == r.value.role
  {
    match UserStore.GetByID(d, userID, fault)
    case Err(_) => Err("user not found")
    case Ok(u) => Ok(UserResponse(u.id, u.email, u.role))
  }

  /** ListUsers: "failed to fetch users" for any store error; otherwise one response per
      row of the query, in order, with the row's ID and Email and, because GetAll does
      not copy it, an empty Role. */
  method ListUsers(query: Result<seq<User>>) returns (r: Result<seq<UserResponse>>)
    ensures query.Err? ==> r == Err("failed to fetch users")
    ensures query.Ok? ==> r.Ok? && |r.value| == |query.value|
    ensures query.Ok? ==> forall i :: 0 <= i < |r.value| ==>
              r.value[i] == UserResponse(query.value[i].id, query.value[i].email, "")
  {
    var users := UserStore.GetAll(query);
    if users.Err? {
      return Err("failed to fetch users");
    }
    var us := users.value;
    var response := new UserResponse[|us|];
    for i := 0 to |us|
      invariant forall j :: 0 <= j < i ==> response[j] == UserResponse(us[j].id, us[j].email, us[j].role)
    {
      response[i] := UserResponse(us[i].id, us[i].email, us[i].role);
    }
    return Ok(response[..]);
  }

  /** Signing up and then asking for the new user by id returns its email and the default role. */
  lemma CreateUserThenGet(d: Directory, req: CreateUserRequest, hash: string)
    requires Valid(d)
    requires CreateUser(d, req, Ok(hash), None).1.None?
    ensures GetUserByID(CreateUser(d, req, Ok(hash), None).0, d.nextID, None)
              == Ok(UserResponse(d.nextID, req.email, DefaultRole))
  {
    CreateThenGet(d, req.email, hash);
  }
}
