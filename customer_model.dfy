/** The customer record: its required fields, bounds, defaults and trimmed text. */
module CustomerModel {
  import opened Wrappers
  import opened Ids
  import opened Text

  /** A customer as the store holds it. */
  datatype Customer = Customer(
    name: string,
    phone: string,
    address: Option<string>,
    trustScore: int,
    totalCredit: int,
    totalRepaid: int,
    user: UserId,
    createdAt: Millis)

  /** The values a customer is created from; `None` is a field that was not supplied. */
  datatype CustomerInput = CustomerInput(
    name: Option<string>,
    phone: Option<string>,
    address: Option<string>,
    trustScore: Option<int>,
    totalCredit: Option<int>,
    totalRepaid: Option<int>,
    user: Option<UserId>,
    createdAt: Option<Millis>)

  /** The fields whose validators can fail. */
  datatype Field = Name | Phone | TrustScore | User

  const MinTrustScore: int := 1
  const MaxTrustScore: int := 10
  const DefaultTrustScore: int := 5

  /** A required string passes when it is present and not empty. */
  predicate RequiredString(s: Option<string>) {
    s.Some? && s.value != []
  }

  /** The stored name: the supplied one, trimmed. */
  function StoredName(input: CustomerInput): Option<string> {
    if input.name.Some? then Some(Trim(input.name.value)) else None
  }

  function StoredTrustScore(input: CustomerInput): int {
    input.trustScore.GetOr(DefaultTrustScore)
  }

  /** The fields whose validation fails; `isMobilePhone` is the phone-number validator of
      the `validator` library, taken as given. */
  function FailingFields(input: CustomerInput, isMobilePhone: string -> bool): set<Field> {
    (if RequiredString(StoredName(input)) then {} else {Name})
    + (if RequiredString(input.phone) && isMobilePhone(input.phone.value) then {} else {Phone})
    + (if MinTrustScore <= StoredTrustScore(input) <= MaxTrustScore then {} else {TrustScore})
    + (if input.user.Some? then {} else {User})
  }

  /** Creating a customer record: refused with the failing fields, or built with the defaults
      filled in and the text fields trimmed. */
  function NewCustomer(input: CustomerInput, isMobilePhone: string -> bool, now: Millis)
    : (r: Result<Customer, set<Field>>)
    ensures r.Failure? ==> r.error != {}
    ensures r.Success? ==> MinTrustScore <= r.value.trustScore <= MaxTrustScore
    ensures r.Success? ==> r.value.name != [] && !IsJsWhitespace(r.value.name[0])
                           && !IsJsWhitespace(r.value.name[|r.value.name| - 1])
  {
    var failing := FailingFields(input, isMobilePhone);
    if failing != {} then Failure(failing)
    else
      assert RequiredString(StoredName(input));
      var name := Trim(input.name.value);
      Success(Customer(
        name,
        input.phone.value,
        if input.address.Some? then Some(Trim(input.address.value)) else None,
        StoredTrustScore(input),
        input.totalCredit.GetOr(0),
        input.totalRepaid.GetOr(0),
        input.user.value,
        input.createdAt.GetOr(now)))
  }

  /** A customer is refused exactly when a name that is blank once trimmed, a missing, empty
      or invalid phone, a trust score outside 1..10 or a missing owner is given. */
  lemma NewCustomerRefusals(input: CustomerInput, isMobilePhone: string -> bool, now: Millis)
    ensures NewCustomer(input, isMobilePhone, now).Failure? <==>
      || input.name.None? || Trim(input.name.value) == []
      || input.phone.None? || input.phone.value == [] || !isMobilePhone(input.phone.value)
      || (input.trustScore.Some? && !(1 <= input.trustScore.value <= 10))
      || input.user.None?
    ensures var r := NewCustomer(input, isMobilePhone, now);
      r.Failure? ==> (input.user.None? <==> User in r.error)
  {
  }

  /** The defaults: trust score 5 and both ledger totals 0 when not supplied, supplied values
      stored as given, the owner and phone as given, and the name and the address (when one is
      supplied) stored trimmed. */
  lemma NewCustomerDefaults(input: CustomerInput, isMobilePhone: string -> bool, now: Millis)
    requires NewCustomer(input, isMobilePhone, now).Success?
    ensures var c := NewCustomer(input, isMobilePhone, now).value;
      && c.trustScore == (if input.trustScore.Some? then input.trustScore.value else 5)
      && c.totalCredit == (if input.totalCredit.Some? then input.totalCredit.value else 0)
      && c.totalRepaid == (if input.totalRepaid.Some? then input.totalRepaid.value else 0)
      && Some(c.user) == input.user && Some(c.phone) == input.phone
      && c.name == Trim(input.name.value) && Trim(c.name) == c.name
      && c.address == (if input.address.Some? then Some(Trim(input.address.value)) else None)
      && (c.address.Some? ==> Trim(c.address.value) == c.address.value)
  {
    TrimIdempotent(input.name.value);
    if input.address.Some? {
      TrimIdempotent(input.address.value);
    }
  }
}
