/**
 * The clause builder shared by the list and update handlers, and the SQL
 * statements the handlers hand to storage. Values are concatenated into the
 * text unescaped, exactly as the service does.
 */
module Clauses {
  import opened Forms

  /** The text of one fragment: the field name, `= '`, the value unchanged, and a closing quote. */
  function Fragment(field: string, value: string): (s: string)
    ensures |s| == |field| + |value| + 4
    ensures s[..|field|] == field && s[|field|..|field| + 3] == "= '"
    ensures s[|field| + 3..|s| - 1] == value && s[|s| - 1] == '\''
  {
    field + "= " + "'" + value + "'"
  }

  /** What one allow-listed key contributes: its fragment when its form value is non-empty, else nothing. */
  function FragmentFor(key: string, form: Form): (r: seq<string>)
    ensures |r| <= 1
    ensures r != [] <==> FormValue(form, key) != ""
  {
    if FormValue(form, key) != "" then [Fragment(key, FormValue(form, key))] else []
  }

  /** The fragments produced for `keys`, in the order of `keys`. */
  function Fragments(keys: seq<string>, form: Form): (r: seq<string>)
    ensures |r| <= |keys|
  {
    if keys == [] then []
    else Fragments(keys[..|keys| - 1], form) + FragmentFor(keys[|keys| - 1], form)
  }

  /** The loop both handlers run over their list of keys, appending to `sqlStrings`. */
  method CollectFragments(keys: seq<string>, form: Form) returns (sqlStrings: seq<string>)
    ensures sqlStrings == Fragments(keys, form)
  {
    sqlStrings := [];
    for i := 0 to |keys|
      invariant sqlStrings == Fragments(keys[..i], form)
    {
      var f := keys[i];
      if FormValue(form, f) != "" {
        var sql := f + "= " + "'" + FormValue(form, f) + "'";
        sqlStrings := sqlStrings + [sql];
      }
      assert keys[..i + 1][..i] == keys[..i];
      assert Fragments(keys[..i + 1], form) == Fragments(keys[..i], form) + FragmentFor(f, form);
    }
    assert keys[..|keys|] == keys;
  }

  /** Every fragment comes from a key of `keys` whose form value is non-empty, with that value inserted. */
  lemma {:induction false} FragmentsSound(keys: seq<string>, form: Form, s: string)
    requires s in Fragments(keys, form)
    ensures exists k :: k in keys && FormValue(form, k) != "" && s == Fragment(k, FormValue(form, k))
  {
    var init := keys[..|keys| - 1];
    if s in Fragments(init, form) {
      FragmentsSound(init, form, s);
      var k :| k in init && FormValue(form, k) != "" && s == Fragment(k, FormValue(form, k));
      assert k in keys;
    } else {
      assert keys[|keys| - 1] in keys;
    }
  }

  /** Every key of `keys` with a non-empty form value has its fragment in the result. */
  lemma {:induction false} FragmentsComplete(keys: seq<string>, form: Form, k: string)
    requires k in keys && FormValue(form, k) != ""
    ensures Fragment(k, FormValue(form, k)) in Fragments(keys, form)
  {
    var init := keys[..|keys| - 1];
    if k != keys[|keys| - 1] {
      assert k in init;
      FragmentsComplete(init, form, k);
    }
  }

  /** The builder distributes over concatenation of key lists: fragment order is key order. */
  lemma {:induction false} FragmentsConcat(a: seq<string>, b: seq<string>, form: Form)
    ensures Fragments(a + b, form) == Fragments(a, form) + Fragments(b, form)
  {
    if b == [] {
      assert a + b == a;
    } else {
      var b' := b[..|b| - 1];
      assert (a + b)[..|a + b| - 1] == a + b';
      FragmentsConcat(a, b', form);
    }
  }

  /** The result depends only on the form values of the listed keys: other keys never matter. */
  lemma {:induction false} FragmentsDependOnlyOnKeys(keys: seq<string>, f1: Form, f2: Form)
    requires forall k :: k in keys ==> FormValue(f1, k) == FormValue(f2, k)
    ensures Fragments(keys, f1) == Fragments(keys, f2)
  {
    if keys != [] {
      FragmentsDependOnlyOnKeys(keys[..|keys| - 1], f1, f2);
      assert keys[|keys| - 1] in keys;
    }
  }

  /** A key outside `keys` never influences the fragments, whatever it carries. */
  lemma OtherKeysIgnored(keys: seq<string>, form: Form, x: string, vs: seq<string>)
    requires x !in keys
    ensures Fragments(keys, form[x := vs]) == Fragments(keys, form)
  {
    FragmentsDependOnlyOnKeys(keys, form[x := vs], form);
  }

  /** A key supplied with an empty value is treated as not supplied. */
  lemma EmptyValueSkipped(keys: seq<string>, form: Form, k: string, rest: seq<string>)
    ensures Fragments(keys, form[k := [""] + rest]) == Fragments(keys, form - {k})
  {
    FragmentsDependOnlyOnKeys(keys, form[k := [""] + rest], form - {k});
  }

  /** No fragment at all exactly when no listed key carries a non-empty value. */
  lemma {:induction false} FragmentsEmptyIff(keys: seq<string>, form: Form)
    ensures Fragments(keys, form) == [] <==> forall k :: k in keys ==> FormValue(form, k) == ""
  {
    if keys != [] {
      var init := keys[..|keys| - 1];
      FragmentsEmptyIff(init, form);
      assert forall k :: k in keys ==> k in init || k == keys[|keys| - 1];
      assert forall k :: k in init ==> k in keys;
    }
  }

  /** The fragments split around position `i`: those before it, its own, and those after it. */
  lemma FragmentsSplitAt(keys: seq<string>, i: nat, form: Form)
    requires i < |keys|
    ensures Fragments(keys, form)
         == Fragments(keys[..i], form) + FragmentFor(keys[i], form) + Fragments(keys[i + 1..], form)
  {
    assert keys == keys[..i + 1] + keys[i + 1..];
    assert keys[..i + 1][..i] == keys[..i];
    FragmentsConcat(keys[..i + 1], keys[i + 1..], form);
  }

  /** In a list without repetitions, the key at `i` occurs neither before nor after `i`. */
  lemma KeyOccursOnce(keys: seq<string>, i: nat)
    requires i < |keys|
    requires forall j :: 0 <= j < |keys| && j != i ==> keys[j] != keys[i]
    ensures keys[i] !in keys[..i] && keys[i] !in keys[i + 1..]
  {
    forall j | 0 <= j < i ensures keys[..i][j] != keys[i] {
      assert keys[..i][j] == keys[j];
    }
    var post := keys[i + 1..];
    forall j | 0 <= j < |post| ensures post[j] != keys[i] {
      assert post[j] == keys[i + 1 + j];
    }
  }

  /**
   * Supplying one more allow-listed field inserts exactly one fragment, at the
   * field's position in the list; the fragments of the other fields are kept.
   */
  lemma AddedFieldInsertsOneFragment(keys: seq<string>, form: Form, i: nat, v: string)
    requires i < |keys| && v != ""
    requires forall j :: 0 <= j < |keys| && j != i ==> keys[j] != keys[i]
    requires FormValue(form, keys[i]) == ""
    ensures Fragments(keys, form[keys[i] := [v]])
         == Fragments(keys[..i], form) + [Fragment(keys[i], v)] + Fragments(keys[i + 1..], form)
  {
    var k := keys[i];
    FragmentsSplitAt(keys, i, form[k := [v]]);
    assert FormValue(form[k := [v]], k) == v;
    KeyOccursOnce(keys, i);
    OtherKeysIgnored(keys[..i], form, k, [v]);
    OtherKeysIgnored(keys[i + 1..], form, k, [v]);
  }

  /** `strings.Join`: the elements with `sep` between neighbours. */
  function Join(xs: seq<string>, sep: string): (s: string)
  {
    if xs == [] then ""
    else if |xs| == 1 then xs[0]
    else xs[0] + sep + Join(xs[1..], sep)
  }

  /** Total length of the elements. */
  function TotalLength(xs: seq<string>): (n: nat)
  {
    if xs == [] then 0 else |xs[0]| + TotalLength(xs[1..])
  }

  /** Joining n >= 1 elements adds exactly n - 1 separators. */
  lemma {:induction false} JoinLength(xs: seq<string>, sep: string)
    requires xs != []
    ensures |Join(xs, sep)| == TotalLength(xs) + (|xs| - 1) * |sep|
  {
    if |xs| > 1 {
      JoinLength(xs[1..], sep);
    }
  }

  /** Joining two non-empty lists puts one separator between their joins. */
  lemma {:induction false} JoinConcat(a: seq<string>, b: seq<string>, sep: string)
    requires a != [] && b != []
    ensures Join(a + b, sep) == Join(a, sep) + sep + Join(b, sep)
  {
    if |a| == 1 {
      assert (a + b)[1..] == b;
    } else {
      assert (a + b)[1..] == a[1..] + b;
      JoinConcat(a[1..], b, sep);
    }
  }

  const SelectAll := "select * from users"
  const WherePrefix := "select * from users WHERE "
  const UpdatePrefix := "UPDATE users SET "
  const UpdateSuffix := " WHERE id=$1;"
  const InsertStatement := "insert into users(first_name, last_name, nickname, password, email, country) values($1,$2,$3,$4,$5,$6)"
  const DeleteStatement := "delete from users where id=$1"

  /** The list query: all rows without fragments, otherwise a `WHERE` with the fragments joined by `AND`. */
  function ListStatement(frags: seq<string>): (q: string)
    ensures q == SelectAll <==> frags == []
    ensures frags != [] ==> |q| >= |WherePrefix| && q[..|WherePrefix|] == WherePrefix
    ensures frags != [] ==> q[|WherePrefix|..] == Join(frags, " AND ")
  {
    if |frags| == 0 then SelectAll
    else WherePrefix + Join(frags, " AND ")
  }

  /**
   * Supplying one more filter field adds exactly one conjunct to the list
   * query, at the field's allow-list position, and keeps all others.
   */
  lemma AddedFilterAddsConjunct(form: Form, i: nat, v: string)
    requires i < |AllowList| && v != "" && FormValue(form, AllowList[i]) == ""
    ensures ListStatement(Fragments(AllowList, form[AllowList[i] := [v]]))
         == WherePrefix + Join(Fragments(AllowList[..i], form) + [Fragment(AllowList[i], v)]
                               + Fragments(AllowList[i + 1..], form), " AND ")
  {
    AllowListDistinct();
    AddedFieldInsertsOneFragment(AllowList, form, i, v);
  }

  /** The update statement: the fragments joined by commas between `SET` and the id parameter. */
  function UpdateStatement(frags: seq<string>): (q: string)
    ensures |q| == |UpdatePrefix| + |Join(frags, ",")| + |UpdateSuffix|
    ensures q[..|UpdatePrefix|] == UpdatePrefix
    ensures q[|UpdatePrefix|..|q| - |UpdateSuffix|] == Join(frags, ",")
    ensures q[|q| - |UpdateSuffix|..] == UpdateSuffix
  {
    UpdatePrefix + Join(frags, ",") + UpdateSuffix
  }
}
