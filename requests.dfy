/** Request bodies and the `requiredFields.filter(...)` check every handler
    starts with. */
module Requests {
  import opened Common

  /** A parsed request body: the keys the client sent, each with its text. */
  type Body = map<string, string>

  /** The required fields that are absent from `body`, in the order `required`
      lists them. A key that is present with an empty value counts as present. */
  function MissingFields(required: seq<string>, body: Body): (missing: seq<string>)
    ensures forall f :: f in missing <==> f in required && f !in body
    ensures missing == [] <==> forall f :: f in required ==> f in body
  {
    var missing := Filter(required, f => f !in body);
    assert missing != [] ==> missing[0] in missing;
    missing
  }

  /** Checking a list in two parts reports the missing fields of the first part
      before those of the second. */
  lemma MissingFieldsAppend(a: seq<string>, b: seq<string>, body: Body)
    ensures MissingFields(a + b, body) == MissingFields(a, body) + MissingFields(b, body)
  {
    FilterAppend(a, b, f => f !in body);
  }

  /** A one-field list reports that field exactly when it is absent. */
  function Absent(f: string, body: Body): seq<string>
  {
    if f in body then [] else [f]
  }

  lemma MissingFieldsSingle(f: string, body: Body)
    ensures MissingFields([f], body) == Absent(f, body)
  {
  }

  lemma MissingFieldsCons(f: string, rest: seq<string>, body: Body)
    ensures MissingFields([f] + rest, body) == Absent(f, body) + MissingFields(rest, body)
  {
    MissingFieldsAppend([f], rest, body);
    MissingFieldsSingle(f, body);
  }

  /** JavaScript truthiness of `body[key]`: the key is present and its text is
      not empty. */
  predicate Truthy(body: Body, key: string)
  {
    key in body && body[key] != ""
  }
}
