/** Transaction payloads: the JSON values a caller hands to the ledger. */
module Payload {

  /** A JSON value. The ledger never looks inside a payload item; it only stores it
      and feeds it to the digest. Integers and floats are kept apart, as the JSON text
      keeps them apart (`1` and `1.0`), so they feed different texts to the digest. */
  datatype Json =
    | JNull
    | JBool(b: bool)
    | JInt(i: int)
    | JFloat(f: real)
    | JStr(s: string)
    | JArr(items: seq<Json>)
    | JObj(members: seq<(string, Json)>)

  /** The "ensure list" step of block construction and of appending: a list is kept
      as it is, any other value becomes a one-element list. */
  function AsList(v: Json): seq<Json>
  {
    if v.JArr? then v.items else [v]
  }

  /** Normalising an already normalised payload changes nothing, so the double
      normalisation on the append path stores the same list as a single one. */
  lemma AsListIdempotent(v: Json)
    ensures AsList(JArr(AsList(v))) == AsList(v)
  {
  }
}
