/** The session ledger of internal/stores/session/store.go: a table of
    {UserID, Token, ExpiresAt, RefreshToken, RefreshExpiresAt} rows, kept here in
    memory in table order. A failure of the backing database is an input `fault`:
    when it is present the query fails with that error and changes nothing. */
module SessionStore {
  import opened Results

  /** ErrSessionExpired */
  const ErrSessionExpired: string := "session expired"

  datatype Session = Session(userID: int, token: string, expiresAt: int,
                             refreshToken: string, refreshExpiresAt: int)

  /** The column a delete or lookup is keyed on. */
  datatype Key = AccessToken(token: string) | RefreshToken(token: string)

  predicate Holds(s: Session, k: Key)
  {
    match k
    case AccessToken(t) => s.token == t
    case RefreshToken(t) => s.refreshToken == t
  }

  /** The table after `DELETE ... WHERE <key column> = <token>`, in table order. */
  function Remove(rows: seq<Session>, k: Key): (r: seq<Session>)
    ensures |r| <= |rows|
  {
    if rows == [] then []
    else (if Holds(rows[0], k) then [] else [rows[0]]) + Remove(rows[1..], k)
  }

  /** A delete leaves every row that does not hold the key with its multiplicity,
      and no row that holds it. */
  lemma {:induction false} RemoveMultiset(rows: seq<Session>, k: Key, s: Session)
    ensures multiset(Remove(rows, k))[s] == if Holds(s, k) then 0 else multiset(rows)[s]
  {
    if rows != [] {
      RemoveMultiset(rows[1..], k, s);
      assert rows == [rows[0]] + rows[1..];
      var head := if Holds(rows[0], k) then [] else [rows[0]];
      assert multiset(Remove(rows, k)) == multiset(head) + multiset(Remove(rows[1..], k));
    }
  }

  /** The number of rows for this user carrying this access token: what the
      IsValidSession query counts. */
  function Count(rows: seq<Session>, userID: int, token: string): nat
  {
    if rows == [] then 0
    else (if rows[0].userID == userID && rows[0].token == token then 1 else 0) + Count(rows[1..], userID, token)
  }

  /** The index of the first row holding the key, the row a `:one` query returns. */
  function First(rows: seq<Session>, k: Key): (r: Option<nat>)
    ensures r.Some? ==> r.value < |rows| && Holds(rows[r.value], k)
                        && forall j :: 0 <= j < r.value ==> !Holds(rows[j], k)
    ensures r.None? <==> forall i :: 0 <= i < |rows| ==> !Holds(rows[i], k)
  {
    if rows == [] then None
    else if Holds(rows[0], k) then Some(0)
    else match First(rows[1..], k)
      case None => None
      case Some(i) => Some(i + 1)
  }

  predicate Matches(s: Session, userID: int, token: string)
  {
    s.userID == userID && s.token == token
  }

  /** Exactly one row of the table belongs to `userID` and carries `token`. */
  ghost predicate ExactlyOne(rows: seq<Session>, userID: int, token: string)
  {
    exists i :: 0 <= i < |rows| && Matches(rows[i], userID, token)
                && forall j :: 0 <= j < |rows| && j != i ==> !Matches(rows[j], userID, token)
  }

  /** Exactly one match in a non-empty table: the head alone, or exactly one in the tail. */
  lemma ExactlyOneUnfold(rows: seq<Session>, userID: int, token: string)
    requires rows != []
    ensures ExactlyOne(rows, userID, token) <==>
              || (Matches(rows[0], userID, token) && forall j :: 0 <= j < |rows| - 1 ==> !Matches(rows[1..][j], userID, token))
              || (!Matches(rows[0], userID, token) && ExactlyOne(rows[1..], userID, token))
  {
    var tail := rows[1..];
    if ExactlyOne(rows, userID, token) {
      var i :| 0 <= i < |rows| && Matches(rows[i], userID, token)
               && forall j :: 0 <= j < |rows| && j != i ==> !Matches(rows[j], userID, token);
      if i > 0 {
        assert tail[i - 1] == rows[i];
        forall j | 0 <= j < |tail| && j != i - 1 ensures !Matches(tail[j], userID, token) {
          assert tail[j] == rows[j + 1];
        }
      } else {
        forall j | 0 <= j < |tail| ensures !Matches(tail[j], userID, token) {
          assert tail[j] == rows[j + 1];
        }
      }
    }
    if Matches(rows[0], userID, token) && forall j :: 0 <= j < |tail| ==> !Matches(tail[j], userID, token) {
      forall j | 0 < j < |rows| ensures !Matches(rows[j], userID, token) {
        assert rows[j] == tail[j - 1];
      }
    }
    if !Matches(rows[0], userID, token) && ExactlyOne(tail, userID, token) {
      var i :| 0 <= i < |tail| && Matches(tail[i], userID, token)
               && forall j :: 0 <= j < |tail| && j != i ==> !Matches(tail[j], userID, token);
      assert rows[i + 1] == tail[i];
      forall j | 0 <= j < |rows| && j != i + 1 ensures !Matches(rows[j], userID, token) {
        if j > 0 { assert rows[j] == tail[j - 1]; }
      }
    }
  }

  /** Count is one exactly when a single row matches the user and the token. */
  lemma {:induction false} CountIsOne(rows: seq<Session>, userID: int, token: string)
    ensures Count(rows, userID, token) == 1 <==> ExactlyOne(rows, userID, token)
  {
    if rows != [] {
      CountIsOne(rows[1..], userID, token);
      CountIsZero(rows[1..], userID, token);
      ExactlyOneUnfold(rows, userID, token);
    }
  }

  /** Count is zero exactly when no row matches the user and the token. */
  lemma {:induction false} CountIsZero(rows: seq<Session>, userID: int, token: string)
    ensures Count(rows, userID, token) == 0 <==> forall i :: 0 <= i < |rows| ==> !Matches(rows[i], userID, token)
  {
    if rows != [] {
      CountIsZero(rows[1..], userID, token);
      assert forall i :: 0 < i < |rows| ==> rows[i] == rows[1..][i - 1];
    }
  }

  /** Count adds up over a concatenation of tables. */
  lemma {:induction false} CountAppend(a: seq<Session>, b: seq<Session>, userID: int, token: string)
    ensures Count(a + b, userID, token) == Count(a, userID, token) + Count(b, userID, token)
  {
    if a == [] {
      assert a + b == b;
    } else {
      assert (a + b)[1..] == a[1..] + b;
      CountAppend(a[1..], b, userID, token);
    }
  }

  /** Deleting by a key counts for (user, token) exactly the rows that did not hold the key. */
  lemma {:induction false} CountAfterRemove(rows: seq<Session>, k: Key, userID: int, token: string)
    ensures k == AccessToken(token) ==> Count(Remove(rows, k), userID, token) == 0
    ensures k.AccessToken? && k.token != token ==> Count(Remove(rows, k), userID, token) == Count(rows, userID, token)
  {
    if rows != [] {
      CountAfterRemove(rows[1..], k, userID, token);
      var head := if Holds(rows[0], k) then [] else [rows[0]];
      CountAppend(head, Remove(rows[1..], k), userID, token);
    }
  }

  /** Deleting twice by the same key deletes nothing more. */
  lemma {:induction false} RemoveIdempotent(rows: seq<Session>, k: Key)
    ensures Remove(Remove(rows, k), k) == Remove(rows, k)
  {
    if rows != [] {
      RemoveIdempotent(rows[1..], k);
      var head := if Holds(rows[0], k) then [] else [rows[0]];
      RemoveAppend(head, Remove(rows[1..], k), k);
    }
  }

  /** Deleting keeps the order of what is left: it works row by row over a concatenation. */
  lemma {:induction false} RemoveAppend(a: seq<Session>, b: seq<Session>, k: Key)
    ensures Remove(a + b, k) == Remove(a, k) + Remove(b, k)
  {
    if a == [] {
      assert a + b == b;
    } else {
      var head := if Holds(a[0], k) then [] else [a[0]];
      assert (a + b)[0] == a[0];
      assert (a + b)[1..] == a[1..] + b;
      calc {
        Remove(a + b, k);
        head + Remove(a[1..] + b, k);
        { RemoveAppend(a[1..], b, k); }
        head + (Remove(a[1..], k) + Remove(b, k));
        (head + Remove(a[1..], k)) + Remove(b, k);
      }
    }
  }

  /** A delete whose key no row holds leaves the table exactly as it was. */
  lemma {:induction false} RemoveAbsent(rows: seq<Session>, k: Key)
    requires forall i :: 0 <= i < |rows| ==> !Holds(rows[i], k)
    ensures Remove(rows, k) == rows
  {
    if rows != [] {
      RemoveAbsent(rows[1..], k);
      assert rows == [rows[0]] + rows[1..];
    }
  }

  /** Store: the session table behind the sqlc queries. */
  class Store {
    var rows: seq<Session>

    constructor ()
      ensures rows == []
    {
      rows := [];
    }

    /** Create: insert one row with exactly the given values, or return the store error
        unchanged and leave the table as it was. */
    method Create(userID: int, token: string, refreshToken: string, expiresAt: int, refreshExpiresAt: int,
                  fault: Option<string>) returns (err: Option<string>)
      modifies this
      ensures err == fault
      ensures fault.Some? ==> rows == old(rows)
      ensures fault.None? ==> rows == old(rows) + [Session(userID, token, expiresAt, refreshToken, refreshExpiresAt)]
    {
      if fault.Some? {
        return fault;
      }
      rows := rows + [Session(userID, token, expiresAt, refreshToken, refreshExpiresAt)];
      return None;
    }

    /** IsValid: true only when the store answers and exactly one row matches the user
        and the token; two matching rows, or none, or a store error give false. */
    function IsValid(userID: int, token: string, fault: Option<string>): (valid: bool)
      reads this
      ensures valid <==> fault.None? && ExactlyOne(rows, userID, token)
    {
      CountIsOne(rows, userID, token);
      fault.None? && Count(rows, userID, token) == 1
    }

    /** DeleteByToken: remove every row whose access token is `token`; nothing else changes. */
    method DeleteByToken(token: string, fault: Option<string>) returns (err: Option<string>)
      modifies this
      ensures err == fault
      ensures fault.Some? ==> rows == old(rows)
      ensures fault.None? ==> rows == Remove(old(rows), AccessToken(token))
    {
      if fault.Some? {
        return fault;
      }
      rows := Remove(rows, AccessToken(token));
      return None;
    }

    /** GetByRefreshToken: the lookup error when no row has this refresh token,
        ErrSessionExpired when the row found expired strictly before `now`, else that row. */
    function GetByRefreshToken(token: string, now: int, fault: Option<string>): (r: Result<Session>)
      reads this
      ensures fault.Some? ==> r == Err(fault.value)
      ensures fault.None? ==> (r == Err(ErrNoRows) <==> forall s :: s in rows ==> s.refreshToken != token)
      ensures r.Ok? ==> r.value in rows && r.value.refreshToken == token && now <= r.value.refreshExpiresAt
      ensures r == Err(ErrSessionExpired) && fault.None? ==>
                exists s :: s in rows && s.refreshToken == token && s.refreshExpiresAt < now
      ensures && fault.None?
              && (exists s :: s in rows && s.refreshToken == token)
              && (forall s :: s in rows && s.refreshToken == token ==> now <= s.refreshExpiresAt)
              ==> r.Ok?
      ensures fault.None? && First(rows, RefreshToken(token)).Some? ==>
                var s := rows[First(rows, RefreshToken(token)).value];
                r == (if s.refreshExpiresAt < now then Err(ErrSessionExpired) else Ok(s))
    {
      if fault.Some? then Err(fault.value)
      else match First(rows, RefreshToken(token))
        case None => Err(ErrNoRows)
        case Some(i) =>
          if rows[i].refreshExpiresAt < now then Err(ErrSessionExpired) else Ok(rows[i])
    }

    /** DeleteByRefreshToken: remove every row whose refresh token is `token`; nothing else changes. */
    method DeleteByRefreshToken(token: string, fault: Option<string>) returns (err: Option<string>)
      modifies this
      ensures err == fault
      ensures fault.Some? ==> rows == old(rows)
      ensures fault.None? ==> rows == Remove(old(rows), RefreshToken(token))
    {
      if fault.Some? {
        return fault;
      }
      rows := Remove(rows, RefreshToken(token));
      return None;
    }
  }

  /** After a delete by access token no row of any user validates with that token. */
  lemma LogoutRevokes(s: Store, before: seq<Session>, token: string, userID: int, fault: Option<string>)
    requires s.rows == Remove(before, AccessToken(token))
    ensures !s.IsValid(userID, token, fault)
  {
    CountAfterRemove(before, AccessToken(token), userID, token);
    CountIsOne(s.rows, userID, token);
  }

  /** A row added for a (user, token) pair no earlier row had makes that pair valid;
      a second row for a pair that was valid makes it invalid. */
  lemma CreateValidates(rows0: seq<Session>, row: Session)
    ensures Count(rows0, row.userID, row.token) == 0 ==> Count(rows0 + [row], row.userID, row.token) == 1
    ensures Count(rows0, row.userID, row.token) == 1 ==> Count(rows0 + [row], row.userID, row.token) == 2
  {
    CountAppend(rows0, [row], row.userID, row.token);
    assert [row][1..] == [];
  }
}
