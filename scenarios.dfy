/**
 * The requests of the service's integration test, worked through the model:
 * the statements they produce and the answers that do not depend on the data.
 */
module Scenarios {
  import opened Wrappers
  import opened Forms
  import opened Clauses
  import opened Handlers

  /** The fragments of the allow-list, unrolled key by key. */
  lemma AllowListFragments(form: Form)
    ensures Fragments(AllowList, form)
         == FragmentFor("first_name", form) + FragmentFor("last_name", form) + FragmentFor("nickname", form)
          + FragmentFor("password", form) + FragmentFor("email", form) + FragmentFor("country", form)
  {
    var k6 := AllowList;
    var k5 := k6[..5];
    var k4 := k5[..4];
    var k3 := k4[..3];
    var k2 := k3[..2];
    var k1 := k2[..1];
    assert k5 == ["first_name", "last_name", "nickname", "password", "email"];
    assert k4 == ["first_name", "last_name", "nickname", "password"];
    assert k3 == ["first_name", "last_name", "nickname"];
    assert k2 == ["first_name", "last_name"];
    assert k1 == ["first_name"] && k1[..0] == [];
    assert Fragments(k1, form) == FragmentFor("first_name", form);
    assert Fragments(k2, form) == Fragments(k1, form) + FragmentFor("last_name", form);
    assert Fragments(k3, form) == Fragments(k2, form) + FragmentFor("nickname", form);
    assert Fragments(k4, form) == Fragments(k3, form) + FragmentFor("password", form);
    assert Fragments(k5, form) == Fragments(k4, form) + FragmentFor("email", form);
    assert Fragments(k6, form) == Fragments(k5, form) + FragmentFor("country", form);
  }

  /** GET /users with no query: every row. */
  lemma ListWithoutFilter()
    ensures ListStatement(Fragments(AllowList, map[])) == "select * from users"
  {
    AllowListFragments(map[]);
  }

  /** GET /users?country=USA&first_name=Hulk: the conjuncts follow the allow-list, not the query string. */
  lemma ListFiltersInAllowListOrder()
    ensures Fragments(AllowList, map["country" := ["USA"], "first_name" := ["Hulk"]])
         == [Fragment("first_name", "Hulk"), Fragment("country", "USA")]
    ensures ListStatement(Fragments(AllowList, map["country" := ["USA"], "first_name" := ["Hulk"]]))
         == WherePrefix + Fragment("first_name", "Hulk") + " AND " + Fragment("country", "USA")
  {
    var form := map["country" := ["USA"], "first_name" := ["Hulk"]];
    AllowListFragments(form);
    assert FormValue(form, "first_name") == "Hulk" && FormValue(form, "country") == "USA";
    assert FormValue(form, "last_name") == FormValue(form, "nickname") == "";
    assert FormValue(form, "password") == FormValue(form, "email") == "";
    var frags := Fragments(AllowList, form);
    var a, b := Fragment("first_name", "Hulk"), Fragment("country", "USA");
    assert frags[1..] == [b];
    assert Join(frags, " AND ") == a + " AND " + b;
    assert WherePrefix + (a + " AND " + b) == WherePrefix + a + " AND " + b;
  }

  /**
   * A filter value is embedded verbatim, whatever it holds: a quote in it ends
   * the SQL literal early and the rest becomes statement text.
   */
  lemma FilterValueEmbeddedVerbatim(v: string)
    requires v != ""
    ensures ListStatement(Fragments(AllowList, map["country" := [v]])) == WherePrefix + Fragment("country", v)
  {
    var form := map["country" := [v]];
    AllowListFragments(form);
    assert FormValue(form, "country") == v;
    assert FormValue(form, "first_name") == FormValue(form, "last_name") == FormValue(form, "nickname") == "";
    assert FormValue(form, "password") == FormValue(form, "email") == "";
    assert Fragments(AllowList, form) == [Fragment("country", v)];
  }

  /** POST /user without a body is refused before storage; with an email it is inserted. */
  lemma CreateRequests(reply: ExecResult)
    ensures CreateOutcome(map[], reply).status == StatusBadRequest
    ensures CreateOutcome(map[], reply).call == None
    ensures CreateOutcome(map["email" := ["test@testing.com"]], reply).call
         == Some(Exec(InsertStatement, ["", "", "", "", "test@testing.com", ""]))
    ensures CreateOutcome(map["email" := ["test@testing.com"]], Done).status == StatusCreated
  {
  }

  /** PATCH /user/5 without fields is refused before storage. */
  lemma PatchWithoutFields(reply: ExecResult)
    ensures PatchOutcome("5", map[], reply).status == StatusBadRequest
    ensures PatchOutcome("5", map[], reply).call == None
  {
    AllowListFragments(map[]);
  }

  /** PATCH /user/5 with three fields sets them in allow-list order, with the id as parameter. */
  lemma PatchThreeFields(reply: ExecResult)
    ensures PatchOutcome("5", map["email" := ["tom@hanks.com"], "last_name" := ["Hanks"], "first_name" := ["Tom"]], reply).call
         == Some(Exec(UpdateStatement([Fragment("first_name", "Tom"), Fragment("last_name", "Hanks"),
                                       Fragment("email", "tom@hanks.com")]), ["5"]))
  {
    var form := map["email" := ["tom@hanks.com"], "last_name" := ["Hanks"], "first_name" := ["Tom"]];
    AllowListFragments(form);
    assert FormValue(form, "first_name") == "Tom" && FormValue(form, "last_name") == "Hanks";
    assert FormValue(form, "email") == "tom@hanks.com";
    assert FormValue(form, "nickname") == FormValue(form, "password") == FormValue(form, "country") == "";
    assert Fragments(AllowList, form)
        == [Fragment("first_name", "Tom"), Fragment("last_name", "Hanks"), Fragment("email", "tom@hanks.com")];
  }

  /** DELETE /user/notanid: the id is passed to storage as given, and its error becomes a 500. */
  lemma DeleteRejectedByStorage(message: string)
    ensures DeleteOutcome("notanid", Failed(message)).call == Some(Exec(DeleteStatement, ["notanid"]))
    ensures DeleteOutcome("notanid", Failed(message)).status == StatusInternalServerError
  {
  }
}
