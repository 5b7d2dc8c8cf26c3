/** A submitted form (`request.formData()`): its entries in order, read with
    `get` (the first value of a key, or null) and `getAll`. */
module Forms {
  import opened Common

  datatype Entry = Entry(key: string, value: string)

  type FormData = seq<Entry>

  /** `formData.get(key)`: the first value under `key`, or null (None). */
  function Get(form: FormData, key: string): (r: Option<string>)
    ensures r.Some? <==> exists i :: 0 <= i < |form| && form[i].key == key
    ensures r.Some? ==> exists i :: && 0 <= i < |form| && form[i].key == key && form[i].value == r.value
                                   && forall j :: 0 <= j < i ==> form[j].key != key
  {
    if form == [] then None
    else if form[0].key == key then Some(form[0].value)
    else
      var r := Get(form[1..], key);
      assert forall i :: 1 <= i < |form| ==> form[i] == form[1..][i - 1];
      r
  }

  /** `formData.getAll(key)`: every value under `key`, in order. */
  function GetAll(form: FormData, key: string): (r: seq<string>)
    ensures |r| <= |form|
    ensures forall v :: v in r <==> exists i :: 0 <= i < |form| && form[i].key == key && form[i].value == v
    ensures (forall i :: 0 <= i < |form| ==> form[i].key != key) ==> r == []
  {
    if form == [] then []
    else
      var rest := GetAll(form[1..], key);
      assert forall i :: 1 <= i < |form| ==> form[i] == form[1..][i - 1];
      if form[0].key == key then [form[0].value] + rest else rest
  }

  /** A field added at the end of the form adds its value at the end of
      `getAll` for its name: the values come in form order. */
  lemma {:induction false} GetAllAppend(form: FormData, e: Entry, key: string)
    ensures GetAll(form + [e], key) == GetAll(form, key) + (if e.key == key then [e.value] else [])
  {
    if form != [] {
      assert (form + [e])[1..] == form[1..] + [e];
      GetAllAppend(form[1..], e, key);
    }
  }

  /** JavaScript truthiness of a form value: present and not empty. */
  predicate Filled(v: Option<string>) {
    v.Some? && v.value != ""
  }

  /** `value || null`: an empty or missing value is stored as null. */
  function OrNull(v: Option<string>): (r: Option<string>)
    ensures r.Some? <==> Filled(v)
    ensures r.Some? ==> r == v
  {
    if Filled(v) then v else None
  }
}
