/** The contact form: building it seeds the default statuses and, for an
    existing contact, splits a "+48" prefix off the stored phone number;
    cleaning it checks that a phone number has exactly nine digits and puts
    the country code back in front. */
module Forms {
  import opened Wrappers
  import opened Strings
  import opened Store
  import opened Taxonomy

  /** The only country code the form offers. */
  const CountryCode: string := "+48"

  const NineDigitsMessage: string := "Phone number must be exactly 9 digits."

  /** The entries of the form's `initial` dict this form sets. */
  datatype Initial = Initial(countryCode: Option<string>, phoneNumber: Option<string>)

  /** The initial values for a new form (`instance` is `None`) or for the
      form editing a stored contact. Editing starts from the stored phone
      number; when it begins with "+48", the code is shown apart and the
      rest, trimmed, is shown as the number. */
  function InitialFor(instance: Option<Contact>): (r: Initial)
    ensures instance.None? ==> r == Initial(Some(CountryCode), None)
    ensures instance.Some? ==> r.phoneNumber.Some?
    ensures instance.Some? && StartsWith(instance.value.phoneNumber, CountryCode) ==>
              r == Initial(Some(CountryCode), Some(Trim(instance.value.phoneNumber[|CountryCode|..])))
    ensures instance.Some? && !StartsWith(instance.value.phoneNumber, CountryCode) ==>
              r == Initial(None, Some(instance.value.phoneNumber))
  {
    match instance
    case None => Initial(Some(CountryCode), None)
    case Some(contact) =>
      var phone := contact.phoneNumber;
      if phone != [] && StartsWith(phone, CountryCode) then
        Initial(Some(CountryCode), Some(Trim(phone[|CountryCode|..])))
      else
        Initial(None, Some(phone))
  }

  /** `ContactForm.__init__`: the four default statuses are get_or_created,
      then the initial values are set. */
  method InitForm(db: Db, instance: Option<Contact>) returns (db': Db, initial: Initial)
    ensures db'.statuses == db.statuses + DefaultSet()
    ensures db'.contacts == db.contacts && db'.clock == db.clock
    ensures DefaultSet() <= db.statuses ==> db' == db
    ensures Valid(db) ==> Valid(db')
    ensures initial == InitialFor(instance)
  {
    db' := SeedDefaults(db);
    initial := InitialFor(instance);
  }

  /** What `clean` leaves: the cleaned data and the errors added, by field. */
  datatype Cleaned = Cleaned(data: map<string, string>, errors: map<string, string>)

  /** The number as `clean` reads it: the cleaned value, trimmed, or empty
      when the field has no cleaned value. */
  function PhoneOf(data: map<string, string>): (r: string)
    ensures IsTrimmed(r)
    ensures "phone_number" in data ==> r == Trim(data["phone_number"])
    ensures "phone_number" !in data ==> r == ""
  {
    Trim(if "phone_number" in data then data["phone_number"] else "")
  }

  /** The code as `clean` reads it: "+48" only when the field has no
      cleaned value at all. */
  function CodeOf(data: map<string, string>): string {
    if "country_code" in data then data["country_code"] else CountryCode
  }

  /** `ContactForm.clean` on the data the fields cleaned. */
  function Clean(data: map<string, string>): (r: Cleaned)
    ensures "phone_number" in r.errors <==> PhoneOf(data) != [] && |Digits(PhoneOf(data))| != 9
    ensures r.errors.Keys <= {"phone_number"}
    ensures "phone_number" in r.errors ==>
              r.errors["phone_number"] == NineDigitsMessage && r.data == data - {"phone_number"}
    ensures PhoneOf(data) != [] && |Digits(PhoneOf(data))| == 9 ==>
              r.data == data["phone_number" := CodeOf(data) + PhoneOf(data)]
    ensures PhoneOf(data) == [] ==> r.data == data
  {
    var phone := PhoneOf(data);
    if phone == [] then Cleaned(data, map[])
    else if |Digits(phone)| != 9 then Cleaned(data - {"phone_number"}, map["phone_number" := NineDigitsMessage])
    else Cleaned(data["phone_number" := CodeOf(data) + phone], map[])
  }

  /** Round trip: a number accepted with the code "+48" (posted or
      defaulted) is saved with the prefix, and the form editing the saved
      contact shows the code apart and the number as it was typed, trimmed. */
  lemma SavedPhoneIsShownAsTyped(data: map<string, string>, contact: Contact)
    requires PhoneOf(data) != [] && |Digits(PhoneOf(data))| == 9
    requires CodeOf(data) == CountryCode
    requires contact.phoneNumber == Clean(data).data["phone_number"]
    ensures InitialFor(Some(contact)) == Initial(Some(CountryCode), Some(PhoneOf(data)))
  {
    var p := PhoneOf(data);
    assert contact.phoneNumber == CountryCode + p;
    assert contact.phoneNumber[|CountryCode|..] == p;
    TrimOfTrimmed(Python, p);
  }
}
