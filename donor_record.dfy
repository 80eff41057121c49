/** The donor's answers, one free-text field per donation question. */
module DonorRecord {

  datatype DonationInfo = DonationInfo(
    firstName: string,
    lastName: string,
    email: string,
    address: string,
    city: string,
    state: string,
    zip: string)

  /** The record the component starts with and goes back to when the visitor rejects the summary. */
  const Empty: DonationInfo := DonationInfo("", "", "", "", "", "", "")

  datatype Field = FirstName | LastName | Email | Address | City | State | Zip

  function FieldValue(info: DonationInfo, f: Field): string
  {
    match f
    case FirstName => info.firstName
    case LastName => info.lastName
    case Email => info.email
    case Address => info.address
    case City => info.city
    case State => info.state
    case Zip => info.zip
  }

  /** The record with one field replaced, as `{ ...prev, field: v }` builds it. */
  function WithField(info: DonationInfo, f: Field, v: string): (r: DonationInfo)
    ensures FieldValue(r, f) == v
    ensures forall g :: g != f ==> FieldValue(r, g) == FieldValue(info, g)
  {
    match f
    case FirstName => info.(firstName := v)
    case LastName => info.(lastName := v)
    case Email => info.(email := v)
    case Address => info.(address := v)
    case City => info.(city := v)
    case State => info.(state := v)
    case Zip => info.(zip := v)
  }
}
