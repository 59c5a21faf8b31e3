/** The user directory of internal/stores/user/store.go. The `users` table is a value:
    rows in insertion order with unique ids and unique emails, plus the next id the
    database will assign. Each getter is one keyed lookup followed by a projection
    that copies only some fields; a failure of the database is an input `fault`. */
module UserStore {
  import opened Results

  /** The error the table's unique constraint on `email` raises. */
  const ErrEmailTaken: string := "UNIQUE constraint failed: users.email"
  /** The role a new row receives from the table's column default. */
  const DefaultRole: string := "user"

  /** sqlc.User. A field a getter does not copy is left at Go's zero value, "". */
  datatype User = User(id: int, email: string, passwordHash: string, role: string)

  datatype Directory = Directory(rows: seq<User>, nextID: int)

  /** Ids and emails are unique, and every id is below the next one to be assigned. */
  ghost predicate Valid(d: Directory)
  {
    && (forall i, j :: 0 <= i < j < |d.rows| ==> d.rows[i].id != d.rows[j].id && d.rows[i].email != d.rows[j].email)
    && (forall i :: 0 <= i < |d.rows| ==> d.rows[i].id < d.nextID)
  }

  /** The column a `:one` query looks a user up by. */
  datatype Lookup = ById(id: int) | ByEmail(email: string)

  predicate Hit(u: User, l: Lookup)
  {
    match l
    case ById(id) => u.id == id
    case ByEmail(email) => u.email == email
  }

  /** The index of the row a lookup returns: the first that matches. */
  function Find(rows: seq<User>, l: Lookup): (r: Option<nat>)
    ensures r.Some? ==> r.value < |rows| && Hit(rows[r.value], l)
    ensures r.None? <==> forall i :: 0 <= i < |rows| ==> !Hit(rows[i], l)
  {
    if rows == [] then None
    else if Hit(rows[0], l) then Some(0)
    else match Find(rows[1..], l)
      case None => None
      case Some(i) => Some(i + 1)
  }

  /** In a valid directory a lookup finds the one row holding the key. */
  lemma FindUnique(d: Directory, l: Lookup, i: nat)
    requires Valid(d) && i < |d.rows| && Hit(d.rows[i], l)
    ensures Find(d.rows, l) == Some(i)
  {
    var k := Find(d.rows, l).value;
    assert Hit(d.rows[k], l);
  }

  /** The query behind each getter: the matching row, ErrNoRows, or the database fault. */
  function Query(d: Directory, l: Lookup, fault: Option<string>): (r: Result<User>)
    ensures fault.Some? ==> r == Err(fault.value)
    ensures fault.None? ==> (r.Err? <==> forall u :: u in d.rows ==> !Hit(u, l))
    ensures r.Err? ==> r.error == (if fault.Some? then fault.value else ErrNoRows)
    ensures r.Ok? ==> r.value in d.rows && Hit(r.value, l)
  {
    if fault.Some? then Err(fault.value)
    else match Find(d.rows, l)
      case None => Err(ErrNoRows)
      case Some(i) => Ok(d.rows[i])
  }

  /** GetAll: the rows of the ListUsers query, in its order, each with only ID and Email
      copied; Role and PasswordHash stay empty. A query error is returned with no rows. */
  method GetAll(query: Result<seq<User>>) returns (r: Result<seq<User>>)
    ensures query.Err? ==> r == Err(query.error)
    ensures query.Ok? ==> r.Ok? && |r.value| == |query.value|
    ensures query.Ok? ==> forall i :: 0 <= i < |r.value| ==>
              && r.value[i].id == query.value[i].id && r.value[i].email == query.value[i].email
              && r.value[i].role == "" && r.value[i].passwordHash == ""
  {
    if query.Err? {
      return Err(query.error);
    }
    var rows := query.value;
    var out := new User[|rows|];
    for i := 0 to |rows|
      invariant forall j :: 0 <= j < i ==> out[j] == User(rows[j].id, rows[j].email, "", "")
    {
      out[i] := User(rows[i].id, rows[i].email, "", "");
    }
    return Ok(out[..]);
  }

  /** GetByID: ID, Email and Role of the user with this id; PasswordHash stays empty. */
  function GetByID(d: Directory, id: int, fault: Option<string>): (r: Result<User>)
    ensures fault.Some? ==> r == Err(fault.value)
    ensures fault.None? ==> (r.Ok? <==> exists u :: u in d.rows && u.id == id)
    ensures r.Err? && fault.None? ==> r.error == ErrNoRows
    ensures r.Ok? ==> r.value.id == id && r.value.passwordHash == ""
                      && exists u :: u in d.rows && u.id == id && u.email == r.value.email && u.role == r.value.role
  {
    match Query(d, ById(id), fault)
    case Err(e) => Err(e)
    case Ok(u) => Ok(User(u.id, u.email, "", u.role))
  }

  /** GetByEmail: ID, Email and PasswordHash of the user with this email; Role stays empty. */
  function GetByEmail(d: Directory, email: string, fault: Option<string>): (r: Result<User>)
    ensures fault.Some? ==> r == Err(fault.value)
    ensures fault.None? ==> (r.Ok? <==> exists u :: u in d.rows && u.email == email)
    ensures r.Err? && fault.None? ==> r.error == ErrNoRows
    ensures r.Ok? ==> r.value.email == email && r.value.role == ""
                      && exists u :: u in d.rows && u.email == email && u.id == r.value.id && u.passwordHash == r.value.passwordHash
  {
    match Query(d, ByEmail(email), fault)
    case Err(e) => Err(e)
    case Ok(u) => Ok(User(u.id, u.email, u.passwordHash, ""))
  }

  /** Create: insert a row with the next id, the email, the hash and the default role,
      returning only its ID and Email; a taken email or a fault is an error and the
      directory is unchanged. */
  function Create(d: Directory, email: string, passwordHash: string, fault: Option<string>): (r: (Directory, Result<User>))
    ensures r.1.Err? ==> r.0 == d
    ensures fault.Some? ==> r.1 == Err(fault.value)
    ensures fault.None? ==> (r.1 == Err(ErrEmailTaken) <==> exists u :: u in d.rows && u.email == email)
    ensures fault.None? && (forall u :: u in d.rows ==> u.email != email) ==> r.1.Ok?
    ensures r.1.Ok? ==> r.1.value == User(d.nextID, email, "", "")
                        && r.0.rows == d.rows + [User(d.nextID, email, passwordHash, DefaultRole)]
                        && r.0.nextID > d.nextID
  {
    if fault.Some? then (d, Err(fault.value))
    else if Find(d.rows, ByEmail(email)).Some? then (d, Err(ErrEmailTaken))
    else
      var u := User(d.nextID, email, passwordHash, DefaultRole);
      (Directory(d.rows + [u], d.nextID + 1), Ok(User(u.id, u.email, "", "")))
  }

  /** GetRole: the role of the user with this id, or the lookup error. */
  function GetRole(d: Directory, userID: int, fault: Option<string>): (r: Result<string>)
    ensures fault.Some? ==> r == Err(fault.value)
    ensures fault.None? ==> (r.Ok? <==> exists u :: u in d.rows && u.id == userID)
    ensures r.Err? && fault.None? ==> r.error == ErrNoRows
    ensures r.Ok? ==> exists u :: u in d.rows && u.id == userID && u.role == r.value
  {
    match Query(d, ById(userID), fault)
    case Err(e) => Err(e)
    case Ok(u) => Ok(u.role)
  }

  /** Create keeps ids and emails unique. */
  lemma CreatePreservesValid(d: Directory, email: string, passwordHash: string, fault: Option<string>)
    requires Valid(d)
    ensures Valid(Create(d, email, passwordHash, fault).0)
  {
    var r := Create(d, email, passwordHash, fault);
    if r.1.Ok? {
      var rows := r.0.rows;
      forall i, j | 0 <= i < j < |rows| ensures rows[i].id != rows[j].id && rows[i].email != rows[j].email {
        if j == |d.rows| {
          assert rows[i] == d.rows[i];
          assert Find(d.rows, ByEmail(email)).None?;
          assert !Hit(d.rows[i], ByEmail(email));
        }
      }
    }
  }

  /** Round trip: a user just created is found by its email with its id and hash, and
      by its id with its email and the default role. */
  lemma CreateThenGet(d: Directory, email: string, passwordHash: string)
    requires Valid(d)
    requires Create(d, email, passwordHash, None).1.Ok?
    ensures var (d', u) := Create(d, email, passwordHash, None);
            && GetByEmail(d', email, None) == Ok(User(u.value.id, email, passwordHash, ""))
            && GetByID(d', u.value.id, None) == Ok(User(u.value.id, email, "", DefaultRole))
  {
    var d' := Create(d, email, passwordHash, None).0;
    CreatePreservesValid(d, email, passwordHash, None);
    var n := |d.rows|;
    assert d'.rows[n] == User(d.nextID, email, passwordHash, DefaultRole);
    FindUnique(d', ByEmail(email), n);
    FindUnique(d', ById(d.nextID), n);
  }
}
