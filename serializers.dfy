/** The REST serializer of contacts: phone number and email are required
    when a contact is created and optional when one is updated, and neither
    is ever written out. */
module Serializers {
  import opened Store

  const RequiredOnCreateMessage: string := "This field is required when creating a contact."

  /** The outcome of `ContactSerializer.validate`: the data it returns, or
      the field errors of the `ValidationError` it raises. */
  datatype Validation = Accepted(data: map<string, string>) | Rejected(errors: map<string, string>)

  /** `not data.get(field)`: the field is missing or empty. */
  predicate Missing(data: map<string, string>, field: string) {
    field !in data || data[field] == []
  }

  /** `ContactSerializer.validate`. On create (`hasInstance` false) both
      missing fields are reported together; on update nothing is required. */
  function Validate(hasInstance: bool, data: map<string, string>): (r: Validation)
    ensures hasInstance ==> r == Accepted(data)
    ensures r.Accepted? ==> r.data == data
    ensures !hasInstance ==> (r.Rejected? <==> Missing(data, "phone_number") || Missing(data, "email"))
    ensures r.Rejected? ==>
              && r.errors.Keys <= {"phone_number", "email"}
              && ("phone_number" in r.errors <==> Missing(data, "phone_number"))
              && ("email" in r.errors <==> Missing(data, "email"))
              && forall field <- r.errors :: r.errors[field] == RequiredOnCreateMessage
  {
    if hasInstance then Accepted(data)
    else
      var errors :=
        (if Missing(data, "phone_number") then map["phone_number" := RequiredOnCreateMessage] else map[])
        + (if Missing(data, "email") then map["email" := RequiredOnCreateMessage] else map[]);
      if errors == map[] then Accepted(data) else Rejected(errors)
  }

  /** A value in the serializer's output. */
  datatype Json = JString(s: string) | JNumber(n: int)

  /** The serialized form of a contact: the readable fields, with the
      status by name. `phone_number` and `email` are write-only. */
  function Represent(c: Contact): (r: map<string, Json>)
    ensures r.Keys == {"first_name", "last_name", "city", "status", "created_at"}
    ensures "phone_number" !in r && "email" !in r
    ensures r["status"] == JString(c.status)
    ensures r["first_name"] == JString(c.firstName) && r["last_name"] == JString(c.lastName)
    ensures r["city"] == JString(c.city) && r["created_at"] == JNumber(c.createdAt)
  {
    map["first_name" := JString(c.firstName), "last_name" := JString(c.lastName), "city" := JString(c.city),
        "status" := JString(c.status), "created_at" := JNumber(c.createdAt)]
  }

  /** Nothing of the phone number or the email reaches the output: two
      contacts that differ only in them serialize alike. */
  lemma WriteOnlyFieldsAreHidden(c: Contact, phone: string, email: string)
    ensures Represent(c.(phoneNumber := phone, email := email)) == Represent(c)
  {
  }
}
