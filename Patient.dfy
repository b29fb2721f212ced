/** The three patient fields every extraction path produces. */
module Patient {
  import opened Wrappers

  /** A `{"first_name", "last_name", "date_of_birth"}` dict. A missing key
      and a `None` value read the same through `dict.get`, so both are `None`. */
  datatype PatientInfo = PatientInfo(firstName: Option<string>, lastName: Option<string>, dateOfBirth: Option<string>)

  /** The keys, in the order the correction loop visits them. */
  datatype Field = FirstName | LastName | DateOfBirth

  const FieldOrder: seq<Field> := [FirstName, LastName, DateOfBirth]

  function Get(info: PatientInfo, f: Field): Option<string> {
    match f
    case FirstName => info.firstName
    case LastName => info.lastName
    case DateOfBirth => info.dateOfBirth
  }

  function Set(info: PatientInfo, f: Field, v: Option<string>): (r: PatientInfo)
    ensures Get(r, f) == v
    ensures forall g :: g != f ==> Get(r, g) == Get(info, g)
  {
    match f
    case FirstName => info.(firstName := v)
    case LastName => info.(lastName := v)
    case DateOfBirth => info.(dateOfBirth := v)
  }

  /** Python truthiness of an optional string: present and non-empty. */
  predicate Truthy(v: Option<string>) { v.Some? && v.value != "" }

  const EmptyInfo: PatientInfo := PatientInfo(None, None, None)
}
