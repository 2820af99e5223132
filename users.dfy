/**
 * The user record, its JSON projection (`User.MarshalJSON`) and the decoding
 * of result rows by the list handler.
 */
module Users {
  import opened Wrappers
  import opened Json

  /** A `time.Time`: an instant and the zone offset it is shown in. */
  datatype Instant = Instant(unixNanos: int, offsetSeconds: int)

  /** `User`, one row of the users table. */
  datatype User = User(
    id: int,
    firstName: string,
    lastName: string,
    nickname: string,
    password: string,
    email: string,
    country: string,
    createdAt: Instant,
    updatedAt: Instant)

  /** `UserJSON`, the shape a user is serialised in. */
  datatype UserJson = UserJson(
    id: int,
    firstName: string,
    lastName: string,
    nickname: string,
    password: string,
    email: string,
    country: string,
    createdAt: string,
    updatedAt: string)

  /** The table's columns, in the order rows are scanned and users are serialised. */
  const UserColumns: seq<string> :=
    ["id", "first_name", "last_name", "nickname", "password", "email", "country", "created_at", "updated_at"]

  lemma UserColumnsDistinct()
    ensures forall i, j :: 0 <= i < j < |UserColumns| ==> UserColumns[i] != UserColumns[j]
  {
  }

  /**
   * `User.MarshalJSON` before encoding: every field copied, the password
   * included, and both timestamps passed through `format` (time.RFC3339).
   */
  function MarshalUser(u: User, format: Instant -> string): (r: UserJson)
    ensures r.id == u.id && r.firstName == u.firstName && r.lastName == u.lastName
    ensures r.nickname == u.nickname && r.password == u.password
    ensures r.email == u.email && r.country == u.country
    ensures r.createdAt == format(u.createdAt) && r.updatedAt == format(u.updatedAt)
  {
    UserJson(u.id, u.firstName, u.lastName, u.nickname, u.password, u.email, u.country,
             format(u.createdAt), format(u.updatedAt))
  }

  /** The JSON object `json.Marshal` builds from a `UserJSON`: tagged fields in declaration order. */
  function UserObject(j: UserJson): (o: Json)
  {
    JObject([
      ("id", JNumber(j.id)),
      ("first_name", JString(j.firstName)),
      ("last_name", JString(j.lastName)),
      ("nickname", JString(j.nickname)),
      ("password", JString(j.password)),
      ("email", JString(j.email)),
      ("country", JString(j.country)),
      ("created_at", JString(j.createdAt)),
      ("updated_at", JString(j.updatedAt))])
  }

  /** A user as it appears in a list response. */
  function EncodeUser(u: User, format: Instant -> string): (o: Json)
  {
    UserObject(MarshalUser(u, format))
  }

  /** The serialised object's keys are the table's columns, in column order, and are distinct. */
  lemma EncodeUserLayout(u: User, format: Instant -> string)
    ensures EncodeUser(u, format).JObject?
    ensures Keys(EncodeUser(u, format).members) == UserColumns
    ensures forall i :: 0 <= i < |UserColumns| ==>
              Lookup(EncodeUser(u, format).members, UserColumns[i]) == Some(EncodeUser(u, format).members[i].1)
  {
    var m := EncodeUser(u, format).members;
    assert Keys(m) == UserColumns;
    UserColumnsDistinct();
    LookupDistinct(m);
  }

  /** Each column of the serialised object carries the user's value unchanged (timestamps formatted). */
  lemma EncodeUserFields(u: User, format: Instant -> string)
    ensures Lookup(EncodeUser(u, format).members, "id") == Some(JNumber(u.id))
    ensures Lookup(EncodeUser(u, format).members, "first_name") == Some(JString(u.firstName))
    ensures Lookup(EncodeUser(u, format).members, "last_name") == Some(JString(u.lastName))
    ensures Lookup(EncodeUser(u, format).members, "nickname") == Some(JString(u.nickname))
    ensures Lookup(EncodeUser(u, format).members, "password") == Some(JString(u.password))
    ensures Lookup(EncodeUser(u, format).members, "email") == Some(JString(u.email))
    ensures Lookup(EncodeUser(u, format).members, "country") == Some(JString(u.country))
    ensures Lookup(EncodeUser(u, format).members, "created_at") == Some(JString(format(u.createdAt)))
    ensures Lookup(EncodeUser(u, format).members, "updated_at") == Some(JString(format(u.updatedAt)))
  {
    EncodeUserLayout(u, format);
    assert UserColumns[0] == "id" && UserColumns[1] == "first_name" && UserColumns[2] == "last_name";
    assert UserColumns[3] == "nickname" && UserColumns[4] == "password" && UserColumns[5] == "email";
    assert UserColumns[6] == "country" && UserColumns[7] == "created_at" && UserColumns[8] == "updated_at";
  }

  /**
   * The projection loses nothing but what the formatter loses: two users with
   * the same serialisation agree on every non-time field, and are equal when
   * the formatter is injective.
   */
  lemma EncodeUserInjective(u1: User, u2: User, format: Instant -> string)
    requires EncodeUser(u1, format) == EncodeUser(u2, format)
    ensures u1.id == u2.id && u1.firstName == u2.firstName && u1.lastName == u2.lastName
    ensures u1.nickname == u2.nickname && u1.password == u2.password
    ensures u1.email == u2.email && u1.country == u2.country
    ensures (forall a, b :: format(a) == format(b) ==> a == b) ==> u1 == u2
  {
    var m1, m2 := EncodeUser(u1, format).members, EncodeUser(u2, format).members;
    assert m1[0] == m2[0] && m1[1] == m2[1] && m1[2] == m2[2];
    assert m1[3] == m2[3] && m1[4] == m2[4] && m1[5] == m2[5];
    assert m1[6] == m2[6] && m1[7] == m2[7] && m1[8] == m2[8];
  }

  /** What `rows.Scan` yields for one row: the decoded user, or the error it reports. */
  datatype Row = Decoded(user: User) | ScanError(message: string)

  /**
   * The scan loop of the list handler: users in row order, or the error of the
   * first row that fails to decode (the users gathered so far are dropped).
   */
  function ScanAll(rows: seq<Row>): (r: Result<seq<User>, string>)
    ensures r.Ok? ==> |r.value| == |rows|
  {
    if rows == [] then Ok([])
    else
      var last := rows[|rows| - 1];
      match ScanAll(rows[..|rows| - 1])
      case Err(e) => Err(e)
      case Ok(users) => if last.ScanError? then Err(last.message) else Ok(users + [last.user])
  }

  /**
   * The scan succeeds exactly when every row decodes, and then yields every
   * row's user in row order; otherwise it reports the error of the first
   * failing row.
   */
  lemma {:induction false} ScanAllMeaning(rows: seq<Row>)
    ensures ScanAll(rows).Ok? <==> forall j :: 0 <= j < |rows| ==> rows[j].Decoded?
    ensures ScanAll(rows).Ok? ==>
              |ScanAll(rows).value| == |rows| &&
              forall j :: 0 <= j < |rows| ==> ScanAll(rows).value[j] == rows[j].user
    ensures ScanAll(rows).Err? ==>
              exists i :: 0 <= i < |rows| && rows[i].ScanError? && ScanAll(rows).error == rows[i].message &&
                          forall j :: 0 <= j < i ==> rows[j].Decoded?
  {
    if rows != [] {
      var n := |rows| - 1;
      var init := rows[..n];
      ScanAllMeaning(init);
      assert forall j :: 0 <= j < n ==> init[j] == rows[j];
      if ScanAll(init).Err? {
        var i :| 0 <= i < n && init[i].ScanError? && ScanAll(init).error == init[i].message &&
                 forall j :: 0 <= j < i ==> init[j].Decoded?;
        assert rows[i].ScanError? && ScanAll(rows).error == rows[i].message;
        assert forall j :: 0 <= j < i ==> rows[j].Decoded?;
      } else if rows[n].ScanError? {
        assert forall j :: 0 <= j < n ==> rows[j].Decoded?;
        assert ScanAll(rows).error == rows[n].message;
      }
    }
  }

  /** Once a prefix of the rows has failed, later rows change nothing: the first error wins. */
  lemma {:induction false} ScanErrorSticks(rows: seq<Row>, more: seq<Row>)
    requires ScanAll(rows).Err?
    ensures ScanAll(rows + more) == ScanAll(rows)
  {
    if more != [] {
      var more' := more[..|more| - 1];
      assert (rows + more)[..|rows + more| - 1] == rows + more';
      ScanErrorSticks(rows, more');
    } else {
      assert rows + more == rows;
    }
  }

  /** One turn of the scan loop: a failing row decides the whole scan, a decoded row is appended. */
  lemma ScanStep(rows: seq<Row>, i: nat, users: seq<User>)
    requires i < |rows| && ScanAll(rows[..i]) == Ok(users)
    ensures rows[i].ScanError? ==> ScanAll(rows) == Err(rows[i].message)
    ensures rows[i].Decoded? ==> ScanAll(rows[..i + 1]) == Ok(users + [rows[i].user])
  {
    var upto := rows[..i + 1];
    assert |upto| == i + 1 && upto[..|upto| - 1] == rows[..i] && upto[|upto| - 1] == rows[i];
    if rows[i].ScanError? {
      assert ScanAll(upto) == Err(rows[i].message);
      assert rows == upto + rows[i + 1..];
      ScanErrorSticks(upto, rows[i + 1..]);
    }
  }

  /**
   * `json.Encode(users)` for the gathered users. `users` starts as a nil slice and is
   * only appended to, so no rows encode as `null`, not as an empty array.
   */
  function UsersBody(users: seq<User>, format: Instant -> string): (j: Json)
    ensures j == JNull <==> users == []
    ensures users != [] ==>
              j.JArray? && |j.items| == |users| &&
              forall i :: 0 <= i < |users| ==> j.items[i] == EncodeUser(users[i], format)
  {
    if users == [] then JNull
    else JArray(seq(|users|, i requires 0 <= i < |users| => EncodeUser(users[i], format)))
  }
}
