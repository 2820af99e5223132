/** Form values of an HTTP request, as `http.Request.ParseForm` leaves them. */
module Forms {

  /** Parsed form: each key maps to its values, body values before URL query values. */
  type Form = map<string, seq<string>>

  /** `r.FormValue(key)`: the first value for the key, or "" when the key is absent or has no value. */
  function FormValue(form: Form, key: string): (v: string)
    ensures key !in form ==> v == ""
    ensures key in form && form[key] != [] ==> v == form[key][0]
  {
    if key in form && |form[key]| > 0 then form[key][0] else ""
  }

  /** The field names every handler recognises, in the order the handlers list them. */
  const AllowList: seq<string> := ["first_name", "last_name", "nickname", "password", "email", "country"]

  lemma AllowListDistinct()
    ensures forall i, j :: 0 <= i < j < |AllowList| ==> AllowList[i] != AllowList[j]
  {
  }
}
