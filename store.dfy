/** The record store of the contact directory: the `ContactStatus` and
    `Contact` tables with their constraints, as a value. A status is a row
    with a unique name; since the core never renames a status, a contact's
    foreign key is represented by the referenced status's name. `created_at`
    is a logical timestamp drawn from the store's clock, which every insert
    advances, so a later contact always has a larger stamp. */
module Store {
  import opened Wrappers
  import opened Strings

  datatype Contact = Contact(
    firstName: string,
    lastName: string,
    phoneNumber: string,
    email: string,
    city: string,
    status: string,
    createdAt: nat)

  datatype Db = Db(statuses: set<string>, contacts: seq<Contact>, clock: nat)

  /** `IntegrityError` for a violated unique or foreign-key constraint,
      `ProtectedError` for deleting a status that is still referenced. */
  datatype StoreError = IntegrityError | ProtectedError

  datatype StoreResult<T> = Ok(value: T) | Err(error: StoreError)

  /** The constraints the schema declares: every contact references an
      existing status (the foreign key), phone numbers and emails are unique,
      and creation stamps increase along insertion order and lie below the
      clock. Status names are unique by construction (a set). */
  ghost predicate Valid(db: Db) {
    && (forall c <- db.contacts :: c.status in db.statuses && c.createdAt < db.clock)
    && (forall i, j | 0 <= i < j < |db.contacts| ::
          && db.contacts[i].phoneNumber != db.contacts[j].phoneNumber
          && db.contacts[i].email != db.contacts[j].email
          && db.contacts[i].createdAt < db.contacts[j].createdAt)
  }

  predicate PhoneTaken(db: Db, phone: string) {
    exists c <- db.contacts :: c.phoneNumber == phone
  }

  predicate EmailTaken(db: Db, email: string) {
    exists c <- db.contacts :: c.email == email
  }

  predicate Referenced(db: Db, name: string) {
    exists c <- db.contacts :: c.status == name
  }

  /** `ContactStatus.objects.create(name=...)`: rejected when the name is
      already in use. */
  function CreateStatus(db: Db, name: string): (r: StoreResult<Db>)
    ensures r.Ok? <==> name !in db.statuses
    ensures r.Ok? ==> name in r.value.statuses && |r.value.statuses| == |db.statuses| + 1
    ensures r.Ok? ==> r.value.statuses - {name} == db.statuses && r.value.contacts == db.contacts
    ensures r.Ok? && Valid(db) ==> Valid(r.value)
  {
    if name in db.statuses then Err(IntegrityError)
    else Ok(db.(statuses := db.statuses + {name}))
  }

  /** `ContactStatus.objects.get_or_create(name=...)`: the store afterwards
      and whether a row was inserted. It never produces a second status of
      the same name. */
  function GetOrCreateStatus(db: Db, name: string): (r: (Db, bool))
    ensures name in r.0.statuses && r.0.statuses == db.statuses + {name}
    ensures r.1 <==> name !in db.statuses
    ensures !r.1 ==> r.0 == db
    ensures r.0.contacts == db.contacts && r.0.clock == db.clock
    ensures Valid(db) ==> Valid(r.0)
  {
    match CreateStatus(db, name)
    case Ok(db') => (db', true)
    case Err(_) => (db, false)
  }

  /** `Contact.objects.create(...)`: the new contact is stamped with the
      clock and appended; a phone number or an email already in use, or a
      status that does not exist, raises `IntegrityError` and leaves the
      store as it was. */
  function CreateContact(db: Db, firstName: string, lastName: string, phone: string,
                         email: string, city: string, status: string): (r: StoreResult<Db>)
    ensures r.Ok? <==> !PhoneTaken(db, phone) && !EmailTaken(db, email) && status in db.statuses
    ensures r.Ok? ==> && r.value.statuses == db.statuses
                      && r.value.contacts == db.contacts + [Contact(firstName, lastName, phone, email, city, status, db.clock)]
    ensures r.Ok? && Valid(db) ==> Valid(r.value)
  {
    if PhoneTaken(db, phone) || EmailTaken(db, email) || status !in db.statuses then
      Err(IntegrityError)
    else
      Ok(Db(db.statuses,
            db.contacts + [Contact(firstName, lastName, phone, email, city, status, db.clock)],
            db.clock + 1))
  }

  /** Deleting a status: the foreign key is `on_delete=PROTECT`, so the
      delete is refused while any contact references the status. */
  function DeleteStatus(db: Db, name: string): (r: StoreResult<Db>)
    ensures r.Err? <==> Referenced(db, name)
    ensures r.Ok? ==> name !in r.value.statuses && r.value.statuses == db.statuses - {name}
    ensures r.Ok? ==> r.value.contacts == db.contacts && r.value.clock == db.clock
    ensures r.Ok? && Valid(db) ==> Valid(r.value)
  {
    if Referenced(db, name) then Err(ProtectedError)
    else Ok(db.(statuses := db.statuses - {name}))
  }

  /** `ContactStatus.objects.first()`: statuses are ordered by name, so the
      first one is the least name, and there is none in an empty table. */
  method FirstStatus(statuses: set<string>) returns (first: Option<string>)
    ensures first.None? <==> statuses == {}
    ensures first.Some? ==> first.value in statuses
    ensures first.Some? ==> forall n :: n in statuses ==> LexLe(first.value, n)
  {
    if statuses == {} {
      return None;
    }
    var least :| least in statuses;
    LexReflexive(least);
    var rest := statuses - {least};
    while rest != {}
      invariant rest <= statuses && least in statuses
      invariant forall n :: n in statuses - rest ==> LexLe(least, n)
      decreases rest
    {
      var x :| x in rest;
      if !LexLe(least, x) {
        LexTotal(least, x);
        forall n | n in statuses - rest
          ensures LexLe(x, n)
        {
          LexTransitive(x, least, n);
        }
        LexReflexive(x);
        least := x;
      }
      rest := rest - {x};
    }
    first := Some(least);
  }

  /** The least name is unique, so `first()` is determined by the names. */
  lemma FirstIsUnique(statuses: set<string>, a: string, b: string)
    requires a in statuses && b in statuses
    requires forall n :: n in statuses ==> LexLe(a, n)
    requires forall n :: n in statuses ==> LexLe(b, n)
    ensures a == b
  {
    LexAntisymmetric(a, b);
  }

  /** `str(contact)`: the first name, a space, the last name. */
  function DisplayName(c: Contact): (r: string)
    ensures |r| == |c.firstName| + 1 + |c.lastName|
    ensures r[..|c.firstName|] == c.firstName && r[|c.firstName|] == ' '
    ensures r[|c.firstName| + 1..] == c.lastName
  {
    c.firstName + " " + c.lastName
  }

  /** When first names contain no space, the display name determines both
      the first and the last name. */
  lemma DisplayNameInjective(a: Contact, b: Contact)
    requires ' ' !in a.firstName && ' ' !in b.firstName
    requires DisplayName(a) == DisplayName(b)
    ensures a.firstName == b.firstName && a.lastName == b.lastName
  {
    if |a.firstName| != |b.firstName| {
      assert false;
    }
  }

  /** The default ordering of contacts, `["last_name", "-created_at"]`:
      by last name ascending, then newest first. */
  predicate DefaultBefore(a: Contact, b: Contact) {
    (LexLe(a.lastName, b.lastName) && a.lastName != b.lastName)
    || (a.lastName == b.lastName && a.createdAt > b.createdAt)
  }

  /** The default ordering is a strict total order on contacts with distinct
      stamps, which `Valid` guarantees for the contacts in the store. */
  lemma DefaultOrderIsStrictTotal(a: Contact, b: Contact, c: Contact)
    ensures !DefaultBefore(a, a)
    ensures a.createdAt != b.createdAt ==> DefaultBefore(a, b) || DefaultBefore(b, a)
    ensures DefaultBefore(a, b) && DefaultBefore(b, c) ==> DefaultBefore(a, c)
  {
    LexTotal(a.lastName, b.lastName);
    if DefaultBefore(a, b) && DefaultBefore(b, c) {
      if LexLe(a.lastName, b.lastName) && LexLe(b.lastName, c.lastName) {
        LexTransitive(a.lastName, b.lastName, c.lastName);
        if a.lastName == c.lastName {
          LexAntisymmetric(a.lastName, b.lastName);
        }
      }
    }
  }
}
