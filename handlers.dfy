/**
 * The four request handlers of the user service. Each is specified by a pure
 * outcome function (status, JSON body, storage call, notification tag) and
 * implemented as a method that writes to a response writer, records the call
 * it hands to storage and fires the change notification.
 * Storage is a parameter: `reply` is what `db.Exec` reports for the call, and
 * `rows` what `db.Query` yields row by row.
 */
module Handlers {
  import opened Wrappers
  import opened Forms
  import opened Clauses
  import opened Json
  import opened Users

  /** A request handed to storage: a statement with its parameters, or a query. */
  datatype Call = Exec(statement: string, args: seq<string>) | Query(statement: string)

  /** What `db.Exec` reports: success, or an error with its text. */
  datatype ExecResult = Done | Failed(message: string)

  /** Everything a request produces: the status, the body, the storage call made and the notification fired. */
  datatype Outcome = Outcome(status: int, body: Json, call: Option<Call>, event: Option<string>)

  const StatusOK := 200
  const StatusCreated := 201
  const StatusBadRequest := 400
  const StatusInternalServerError := 500

  const EmailRequired := "email is required."
  const NoFieldsToUpdate := "You did not provide any fields to update"

  /**
   * The rule every mutating handler keeps: a rejected request never reaches
   * storage and answers 400; a storage error answers 500 with its text and no
   * notification; a notification (with the handler's tag) fires exactly when
   * storage was called and succeeded, and then the body is `{ok: true}`.
   */
  predicate MutationDiscipline(o: Outcome, reply: ExecResult, tag: string)
  {
    && (o.call.None? ==> o.status == StatusBadRequest && o.event.None?)
    && (o.event.Some? <==> o.call.Some? && reply.Done?)
    && (o.event.Some? ==> o.event.value == tag && o.body == OkEnvelope)
    && (o.call.Some? && reply.Failed? ==>
          o.status == StatusInternalServerError && o.body == FailureEnvelope("message", reply.message))
  }

  /** The parameters of the insert statement, one per placeholder $1..$6. */
  function CreateArgs(form: Form): (args: seq<string>)
    ensures |args| == |AllowList|
    ensures forall i :: 0 <= i < |AllowList| ==> args[i] == FormValue(form, AllowList[i])
  {
    [FormValue(form, "first_name"), FormValue(form, "last_name"), FormValue(form, "nickname"),
     FormValue(form, "password"), FormValue(form, "email"), FormValue(form, "country")]
  }

  /** POST /user. */
  function CreateOutcome(form: Form, reply: ExecResult): (o: Outcome)
    ensures MutationDiscipline(o, reply, "created")
    ensures o.call.None? <==> FormValue(form, "email") == ""
    ensures o.call.None? ==> o.body == FailureEnvelope("error", EmailRequired)
    ensures o.call.Some? ==> o.call.value == Exec(InsertStatement, CreateArgs(form))
    ensures o.event.Some? ==> o.status == StatusCreated
  {
    if FormValue(form, "email") == "" then
      Outcome(StatusBadRequest, FailureEnvelope("error", EmailRequired), None, None)
    else
      var call := Some(Exec(InsertStatement, CreateArgs(form)));
      match reply
      case Failed(msg) => Outcome(StatusInternalServerError, FailureEnvelope("message", msg), call, None)
      case Done => Outcome(StatusCreated, OkEnvelope, call, Some("created"))
  }

  /** GET /users. Query errors are not inspected: `rows` is whatever the query yields. */
  function ListOutcome(form: Form, rows: seq<Row>, format: Instant -> string): (o: Outcome)
    ensures o.call == Some(Query(ListStatement(Fragments(AllowList, form)))) && o.event == None
    ensures o.status == StatusOK || o.status == StatusInternalServerError
  {
    var call := Some(Query(ListStatement(Fragments(AllowList, form))));
    match ScanAll(rows)
    case Err(msg) => Outcome(StatusInternalServerError, FailureEnvelope("message", msg), call, None)
    case Ok(users) => Outcome(StatusOK, UsersBody(users, format), call, None)
  }

  /**
   * The list answers 200 exactly when every row decodes, with every row's user
   * in row order (so no rows give `null`); otherwise it answers 500 with the
   * error of the first row that fails, and the users read before it are dropped.
   */
  lemma ListOutcomeMeaning(form: Form, rows: seq<Row>, format: Instant -> string)
    ensures var o := ListOutcome(form, rows, format);
      && (o.status == StatusOK <==> forall j :: 0 <= j < |rows| ==> rows[j].Decoded?)
      && (o.status == StatusOK ==>
            o.body == UsersBody(seq(|rows|, j requires 0 <= j < |rows| => rows[j].user), format))
      && (rows == [] ==> o.status == StatusOK && o.body == JNull)
      && (o.status == StatusInternalServerError ==>
            exists i :: 0 <= i < |rows| && rows[i].ScanError? &&
                        o.body == FailureEnvelope("message", rows[i].message) &&
                        forall j :: 0 <= j < i ==> rows[j].Decoded?)
  {
    ScanAllMeaning(rows);
    if ScanAll(rows).Ok? {
      assert ScanAll(rows).value == seq(|rows|, j requires 0 <= j < |rows| => rows[j].user);
    }
  }

  /** PATCH /user/{id}. */
  function PatchOutcome(id: string, form: Form, reply: ExecResult): (o: Outcome)
    ensures MutationDiscipline(o, reply, "updated")
    ensures o.call.None? <==> Fragments(AllowList, form) == []
    ensures o.call.None? ==> o.body == FailureEnvelope("message", NoFieldsToUpdate)
    ensures o.call.Some? ==> o.call.value == Exec(UpdateStatement(Fragments(AllowList, form)), [id])
    ensures o.event.Some? ==> o.status == StatusOK
  {
    var frags := Fragments(AllowList, form);
    if |frags| == 0 then
      Outcome(StatusBadRequest, FailureEnvelope("message", NoFieldsToUpdate), None, None)
    else
      var call := Some(Exec(UpdateStatement(frags), [id]));
      match reply
      case Failed(msg) => Outcome(StatusInternalServerError, FailureEnvelope("message", msg), call, None)
      case Done => Outcome(StatusOK, OkEnvelope, call, Some("updated"))
  }

  /** DELETE /user/{id}. */
  function DeleteOutcome(id: string, reply: ExecResult): (o: Outcome)
    ensures MutationDiscipline(o, reply, "deleted")
    ensures o.call == Some(Exec(DeleteStatement, [id]))
    ensures o.status == StatusOK <==> reply.Done?
  {
    var call := Some(Exec(DeleteStatement, [id]));
    match reply
    case Failed(msg) => Outcome(StatusInternalServerError, FailureEnvelope("message", msg), call, None)
    case Done => Outcome(StatusOK, OkEnvelope, call, Some("deleted"))
  }

  /** The list handler's filter loop and statement assembly. */
  method BuildListQuery(form: Form) returns (sqlCommand: string)
    ensures sqlCommand == ListStatement(Fragments(AllowList, form))
  {
    var sqlStrings := CollectFragments(AllowList, form);
    if |sqlStrings| == 0 {
      sqlCommand := "select * from users";
    } else {
      sqlCommand := "select * from users WHERE " + Join(sqlStrings, " AND ");
    }
  }

  /**
   * The list handler's row loop: each row is scanned and appended to `users`;
   * the first row that fails to scan stops the loop with its error.
   */
  method ScanRows(rows: seq<Row>) returns (users: seq<User>, failed: Option<string>)
    ensures failed.None? ==> ScanAll(rows) == Ok(users)
    ensures failed.Some? ==> ScanAll(rows) == Err(failed.value)
  {
    users, failed := [], None;
    var i := 0;
    while i < |rows|
      invariant 0 <= i <= |rows|
      invariant ScanAll(rows[..i]) == Ok(users)
    {
      ScanStep(rows, i, users);
      if rows[i].ScanError? {
        failed := Some(rows[i].message);
        return;
      }
      users := users + [rows[i].user];
      i := i + 1;
    }
    assert rows[..i] == rows;
  }

  /**
   * An `http.ResponseWriter` as the handlers use it. The status is the first
   * one written; writing a body without one writes 200; a handler that writes
   * nothing answers 200 as well. A header set after the status is not sent.
   */
  class ResponseWriter {
    var contentType: string
    var wroteHeader: bool
    var code: int
    var body: seq<Json>

    constructor ()
      ensures contentType == "" && !wroteHeader && body == []
    {
      contentType, wroteHeader, code, body := "", false, 0, [];
    }

    function Status(): int
      reads this
    {
      if wroteHeader then code else StatusOK
    }

    method SetContentType(v: string)
      modifies this
      ensures contentType == (if old(wroteHeader) then old(contentType) else v)
      ensures wroteHeader == old(wroteHeader) && code == old(code) && body == old(body)
    {
      if !wroteHeader {
        contentType := v;
      }
    }

    method WriteHeader(c: int)
      modifies this
      ensures wroteHeader && code == (if old(wroteHeader) then old(code) else c)
      ensures contentType == old(contentType) && body == old(body)
    {
      if !wroteHeader {
        wroteHeader, code := true, c;
      }
    }

    /** `json.NewEncoder(w).Encode(v)`. */
    method Encode(v: Json)
      modifies this
      ensures wroteHeader && code == (if old(wroteHeader) then old(code) else StatusOK)
      ensures contentType == old(contentType) && body == old(body) + [v]
    {
      if !wroteHeader {
        wroteHeader, code := true, StatusOK;
      }
      body := body + [v];
    }
  }

  /** A writer no handler has used yet, as the HTTP server passes it. */
  predicate Unused(w: ResponseWriter)
    reads w
  {
    !w.wroteHeader && w.body == []
  }

  /** The writer holds exactly the response the outcome describes. */
  predicate Answered(w: ResponseWriter, o: Outcome)
    reads w
  {
    w.contentType == "application/json" && w.Status() == o.status && w.body == [o.body]
  }

  /**
   * The service: what it has handed to storage, in order, and the tags its
   * change notification has been called with.
   */
  class Service {
    var calls: seq<Call>
    var events: seq<string>

    constructor ()
      ensures calls == [] && events == []
    {
      calls, events := [], [];
    }

    /** The change notification: records its tag and nothing else. */
    method UsersChanged(tag: string)
      modifies this
      ensures events == old(events) + [tag] && calls == old(calls)
    {
      events := events + [tag];
    }

    method CreateUser(w: ResponseWriter, form: Form, reply: ExecResult)
      requires Unused(w)
      modifies this, w
      ensures Answered(w, CreateOutcome(form, reply))
      ensures calls == old(calls) + ToSeq(CreateOutcome(form, reply).call)
      ensures events == old(events) + ToSeq(CreateOutcome(form, reply).event)
    {
      w.SetContentType("application/json");
      if FormValue(form, "email") == "" {
        w.WriteHeader(StatusBadRequest);
        w.Encode(FailureEnvelope("error", EmailRequired));
        return;
      }
      calls := calls + [Exec(InsertStatement, [FormValue(form, "first_name"), FormValue(form, "last_name"),
        FormValue(form, "nickname"), FormValue(form, "password"), FormValue(form, "email"), FormValue(form, "country")])];
      if reply.Failed? {
        w.WriteHeader(StatusInternalServerError);
        w.Encode(FailureEnvelope("message", reply.message));
        return;
      }
      w.WriteHeader(StatusCreated);
      w.Encode(OkEnvelope);
      UsersChanged("created");
    }

    method GetUsers(w: ResponseWriter, form: Form, rows: seq<Row>, format: Instant -> string)
      requires Unused(w)
      modifies this, w
      ensures Answered(w, ListOutcome(form, rows, format))
      ensures calls == old(calls) + ToSeq(ListOutcome(form, rows, format).call)
      ensures events == old(events)
    {
      w.SetContentType("application/json");
      var sqlCommand := BuildListQuery(form);
      calls := calls + [Query(sqlCommand)];
      var users, failed := ScanRows(rows);
      if failed.Some? {
        w.WriteHeader(StatusInternalServerError);
        w.Encode(FailureEnvelope("message", failed.value));
        return;
      }
      w.WriteHeader(StatusOK);
      w.Encode(UsersBody(users, format));
    }

    method PatchUser(w: ResponseWriter, id: string, form: Form, reply: ExecResult)
      requires Unused(w)
      modifies this, w
      ensures Answered(w, PatchOutcome(id, form, reply))
      ensures calls == old(calls) + ToSeq(PatchOutcome(id, form, reply).call)
      ensures events == old(events) + ToSeq(PatchOutcome(id, form, reply).event)
    {
      w.SetContentType("application/json");
      var sqlStrings := CollectFragments(AllowList, form);
      if |sqlStrings| == 0 {
        w.WriteHeader(StatusBadRequest);
        w.Encode(FailureEnvelope("message", NoFieldsToUpdate));
        return;
      }
      var sqlCommand := "UPDATE users SET " + Join(sqlStrings, ",") + " WHERE id=$1;";
      assert sqlCommand == UpdateStatement(Fragments(AllowList, form));
      calls := calls + [Exec(sqlCommand, [id])];
      if reply.Failed? {
        w.WriteHeader(StatusInternalServerError);
        w.Encode(FailureEnvelope("message", reply.message));
        return;
      }
      w.Encode(OkEnvelope);
      UsersChanged("updated");
    }

    method DeleteUser(w: ResponseWriter, id: string, reply: ExecResult)
      requires Unused(w)
      modifies this, w
      ensures Answered(w, DeleteOutcome(id, reply))
      ensures calls == old(calls) + ToSeq(DeleteOutcome(id, reply).call)
      ensures events == old(events) + ToSeq(DeleteOutcome(id, reply).event)
    {
      w.SetContentType("application/json");
      calls := calls + [Exec("delete from users where id=$1", [id])];
      if reply.Failed? {
        w.WriteHeader(StatusInternalServerError);
        w.Encode(FailureEnvelope("message", reply.message));
        return;
      }
      w.Encode(OkEnvelope);
      UsersChanged("deleted");
    }
  }
}
