/** CSV import reconciliation (`import_contacts`): already parsed rows are
    reconciled with the store one at a time. A row with a required field
    empty after trimming is skipped; otherwise its status is resolved
    (default status, alias or literal name), the contact is inserted, and a
    uniqueness violation counts the row as skipped without undoing anything
    done before. */
module Import {
  import opened Wrappers
  import opened Strings
  import opened Store
  import opened Taxonomy

  /** One parsed CSV row: column name to cell text. A column the row does
      not have is absent, which the source reads as an empty cell. */
  type Row = map<string, string>

  /** `(row.get(column) or "").strip()`. */
  function Cell(row: Row, column: string): (r: string)
    ensures IsTrimmed(r)
    ensures column in row ==> r == Trim(row[column])
    ensures column !in row ==> r == ""
  {
    Trim(if column in row then row[column] else "")
  }

  /** The six trimmed cells of a row. */
  datatype Fields = Fields(
    firstName: string, lastName: string, phoneNumber: string,
    email: string, city: string, status: string)

  function Cells(row: Row): (f: Fields)
    ensures IsTrimmed(f.firstName) && IsTrimmed(f.lastName) && IsTrimmed(f.phoneNumber)
    ensures IsTrimmed(f.email) && IsTrimmed(f.city) && IsTrimmed(f.status)
  {
    Fields(Cell(row, "first_name"), Cell(row, "last_name"), Cell(row, "phone_number"),
           Cell(row, "email"), Cell(row, "city"), Cell(row, "status"))
  }

  /** All five required cells are non-empty after trimming. */
  predicate Complete(f: Fields) {
    f.firstName != "" && f.lastName != "" && f.phoneNumber != "" && f.email != "" && f.city != ""
  }

  /** The status a complete row is filed under: the default status when its
      status cell is empty, the normalised name otherwise. */
  function ResolvedStatus(f: Fields, defaultStatus: string): string {
    if f.status == "" then defaultStatus else NormalizeStatusName(f.status)
  }

  /** The contact `c` is what a complete row with cells `f` turns into. */
  ghost predicate FromRow(c: Contact, f: Fields, defaultStatus: string) {
    && Complete(f)
    && c.firstName == f.firstName
    && c.lastName == f.lastName
    && c.phoneNumber == f.phoneNumber
    && c.email == f.email
    && c.city == f.city
    && c.status == ResolvedStatus(f, defaultStatus)
  }

  datatype RowOutcome = Created | SkippedIncomplete | SkippedDuplicate

  /** The body of the row loop, for one row's trimmed cells. */
  function ImportRow(db: Db, defaultStatus: string, f: Fields): (r: (Db, RowOutcome))
    ensures r.1 == SkippedIncomplete <==> !Complete(f)
    ensures !Complete(f) ==> r.0 == db
    ensures r.1 == Created ==>
              && |r.0.contacts| == |db.contacts| + 1
              && db.contacts <= r.0.contacts
              && FromRow(r.0.contacts[|db.contacts|], f, defaultStatus)
              && r.0.contacts[|db.contacts|].createdAt == db.clock
    ensures r.1 != Created ==> r.0.contacts == db.contacts
    ensures db.statuses <= r.0.statuses
    ensures f.status == "" ==> r.0.statuses == db.statuses
    ensures Complete(f) && f.status != "" ==>
              r.0.statuses == db.statuses + {NormalizeStatusName(f.status)}
    ensures forall n :: n in r.0.statuses - db.statuses ==> Lower(n) !in AliasNames()
    ensures Complete(f) && defaultStatus in db.statuses ==>
              (r.1 == SkippedDuplicate <==> PhoneTaken(db, f.phoneNumber) || EmailTaken(db, f.email))
  {
    if !Complete(f) then
      (db, SkippedIncomplete)
    else
      var withStatus := if f.status == "" then db else GetOrCreateStatus(db, NormalizeStatusName(f.status)).0;
      match CreateContact(withStatus, f.firstName, f.lastName, f.phoneNumber, f.email, f.city,
                          ResolvedStatus(f, defaultStatus))
      case Ok(db') => (db', Created)
      case Err(_) => (withStatus, SkippedDuplicate)
  }

  /** The store and the two counters after the rows so far. */
  datatype Tally = Tally(db: Db, created: nat, skipped: nat)

  /** The trimmed cells of every row, in file order. */
  function CellsOf(rows: seq<Row>): (fs: seq<Fields>)
    ensures |fs| == |rows|
    ensures forall i :: 0 <= i < |rows| ==> fs[i] == Cells(rows[i])
  {
    seq(|rows|, i requires 0 <= i < |rows| => Cells(rows[i]))
  }

  /** The row loop over the rows' cells, from the first row to the last. */
  function ImportAll(db: Db, defaultStatus: string, rows: seq<Fields>): (r: Tally)
    ensures r.created + r.skipped == |rows|
    ensures |r.db.contacts| == |db.contacts| + r.created
    ensures db.contacts <= r.db.contacts
    ensures db.statuses <= r.db.statuses
    ensures forall n :: n in r.db.statuses - db.statuses ==> Lower(n) !in AliasNames()
    decreases |rows|
  {
    if rows == [] then
      Tally(db, 0, 0)
    else
      var prev := ImportAll(db, defaultStatus, rows[..|rows| - 1]);
      var (db', outcome) := ImportRow(prev.db, defaultStatus, rows[|rows| - 1]);
      if outcome == Created then Tally(db', prev.created + 1, prev.skipped)
      else Tally(db', prev.created, prev.skipped + 1)
  }

  /** The import never breaks the store's constraints: each contact it
      inserts has a free phone number and email, an existing status and the
      newest stamp. */
  lemma {:induction false} ImportAllKeepsValid(db: Db, defaultStatus: string, rows: seq<Fields>)
    requires Valid(db)
    ensures Valid(ImportAll(db, defaultStatus, rows).db)
    decreases |rows|
  {
    if rows != [] {
      var init := rows[..|rows| - 1];
      ImportAllKeepsValid(db, defaultStatus, init);
    }
  }

  /** Every contact an import inserts is the image of one complete row of
      the file: its trimmed cells and its resolved status. */
  lemma {:induction false} CreatedContactsComeFromRows(db: Db, defaultStatus: string, rows: seq<Fields>)
    ensures forall k :: |db.contacts| <= k < |ImportAll(db, defaultStatus, rows).db.contacts| ==>
              exists i :: 0 <= i < |rows| &&
                FromRow(ImportAll(db, defaultStatus, rows).db.contacts[k], rows[i], defaultStatus)
    decreases |rows|
  {
    if rows == [] {
      assert ImportAll(db, defaultStatus, rows).db == db;
    } else {
      var init := rows[..|rows| - 1];
      CreatedContactsComeFromRows(db, defaultStatus, init);
      var prev := ImportAll(db, defaultStatus, init);
      var last := rows[|rows| - 1];
      var next := ImportRow(prev.db, defaultStatus, last).0;
      assert ImportAll(db, defaultStatus, rows).db == next;
      forall k | |db.contacts| <= k < |next.contacts|
        ensures exists i :: 0 <= i < |rows| && FromRow(next.contacts[k], rows[i], defaultStatus)
      {
        if k < |prev.db.contacts| {
          var i :| 0 <= i < |init| && FromRow(prev.db.contacts[k], init[i], defaultStatus);
          assert init[i] == rows[i];
          assert next.contacts[k] == prev.db.contacts[k];
          assert FromRow(next.contacts[k], rows[i], defaultStatus);
        } else {
          assert FromRow(next.contacts[k], rows[|rows| - 1], defaultStatus);
        }
      }
    }
  }

  /** The store the loop starts from: when the taxonomy is empty the source
      creates a status "new" before the loop, whether or not any row is
      imported. */
  function StartOf(db: Db): (r: Db)
    ensures r.contacts == db.contacts && db.statuses <= r.statuses
    ensures db.statuses == {} ==> r.statuses == {"new"}
    ensures Valid(db) ==> Valid(r)
  {
    if db.statuses == {} then CreateStatus(db, "new").value else db
  }

  /** In a store holding just the seeded defaults, the first status by name
      is "in progress" (the space sorts before the letters), so a row with an
      empty status cell is filed as "in progress", not as "new". */
  lemma SeededDefaultIsInProgress()
    ensures "in progress" in DefaultSet()
    ensures forall n <- DefaultSet() :: LexLe("in progress", n)
  {
    assert DefaultStatuses[1] == "in progress";
    forall n <- DefaultSet()
      ensures LexLe("in progress", n)
    {
      if n == "in progress" {
        LexReflexive(n);
      } else {
        assert n in ["new", "lost", "outdated"];
      }
    }
  }

  /** `import_contacts` on already parsed rows. The default status is fetched
      once: the least status name, or a fresh "new" when there is none. */
  method ImportContacts(db: Db, rows: seq<Row>)
      returns (db': Db, created: nat, skipped: nat, defaultStatus: string)
    requires Valid(db)
    ensures Valid(db')
    ensures db.statuses == {} ==> defaultStatus == "new"
    ensures db.statuses != {} ==>
              defaultStatus in db.statuses && forall n :: n in db.statuses ==> LexLe(defaultStatus, n)
    ensures Tally(db', created, skipped) == ImportAll(StartOf(db), defaultStatus, CellsOf(rows))
    ensures created + skipped == |rows|
    ensures |db'.contacts| == |db.contacts| + created && db.contacts <= db'.contacts
    ensures db.statuses <= db'.statuses && defaultStatus in db'.statuses
    ensures forall n :: n in db'.statuses - db.statuses ==> n == "new" || Lower(n) !in AliasNames()
  {
    var first := FirstStatus(db.statuses);
    var start := db;
    match first {
      case Some(name) =>
        defaultStatus := name;
      case None =>
        start := CreateStatus(db, "new").value;
        defaultStatus := "new";
    }
    assert start == StartOf(db);
    db', created, skipped := ReconcileRows(start, defaultStatus, CellsOf(rows));
    ImportAllKeepsValid(start, defaultStatus, CellsOf(rows));
  }

  /** The row loop of `import_contacts`, over the rows' trimmed cells. */
  method ReconcileRows(start: Db, defaultStatus: string, cells: seq<Fields>)
      returns (db': Db, created: nat, skipped: nat)
    ensures Tally(db', created, skipped) == ImportAll(start, defaultStatus, cells)
  {
    db', created, skipped := start, 0, 0;
    var i := 0;
    while i < |cells|
      invariant 0 <= i <= |cells|
      invariant Tally(db', created, skipped) == ImportAll(start, defaultStatus, cells[..i])
    {
      assert cells[..i + 1][..i] == cells[..i];
      var (next, outcome) := ImportRow(db', defaultStatus, cells[i]);
      db' := next;
      if outcome == Created {
        created := created + 1;
      } else {
        skipped := skipped + 1;
      }
      i := i + 1;
    }
    assert cells[..|cells|] == cells;
  }

  /** Importing a row whose phone number or email is already stored creates
      no contact, as in a second import of the same file: the row is skipped
      and the contacts are left as they were. The status it names is still
      get_or_created before the insert fails, so a new status name is kept. */
  lemma DuplicateRowIsSkipped(db: Db, defaultStatus: string, f: Fields)
    requires Complete(f) && defaultStatus in db.statuses
    requires PhoneTaken(db, f.phoneNumber) || EmailTaken(db, f.email)
    ensures ImportAll(db, defaultStatus, [f]).created == 0
    ensures ImportAll(db, defaultStatus, [f]).skipped == 1
    ensures ImportAll(db, defaultStatus, [f]).db.contacts == db.contacts
    ensures ImportAll(db, defaultStatus, [f]).db.statuses
              == db.statuses + (if f.status == "" then {} else {NormalizeStatusName(f.status)})
  {
    assert [f][..0] == [];
  }

  /** Two rows that share a phone number (or an email) in one file, where the
      first is new to the store: exactly one contact is created and the other
      row is skipped. */
  lemma SharedPhoneCreatesOnce(db: Db, defaultStatus: string, first: Fields, second: Fields)
    requires Valid(db) && defaultStatus in db.statuses
    requires Complete(first) && Complete(second)
    requires !PhoneTaken(db, first.phoneNumber) && !EmailTaken(db, first.email)
    requires first.phoneNumber == second.phoneNumber || first.email == second.email
    ensures ImportAll(db, defaultStatus, [first, second]).created == 1
    ensures ImportAll(db, defaultStatus, [first, second]).skipped == 1
  {
    var (db1, o1) := ImportRow(db, defaultStatus, first);
    assert o1 == Created;
    assert [first][..0] == [];
    assert ImportAll(db, defaultStatus, [first]) == Tally(db1, 1, 0);
    assert db1.contacts[|db.contacts|] in db1.contacts;
    assert PhoneTaken(db1, second.phoneNumber) || EmailTaken(db1, second.email);
    assert ImportRow(db1, defaultStatus, second).1 == SkippedDuplicate;
    assert [first, second][..1] == [first];
  }

  /** A row whose status is a Polish alias, in any case, is filed under the
      English status, and the import does not create a status spelled as
      the alias. */
  lemma AliasRowFiledInEnglish(db: Db, defaultStatus: string, f: Fields, i: nat)
    requires Valid(db) && defaultStatus in db.statuses
    requires Complete(f) && !PhoneTaken(db, f.phoneNumber) && !EmailTaken(db, f.email)
    requires i < |StatusNameMapping| && Lower(f.status) == StatusNameMapping[i].0
    requires StatusNameMapping[i].0 !in db.statuses
    ensures ImportRow(db, defaultStatus, f).1 == Created
    ensures ImportRow(db, defaultStatus, f).0.contacts[|db.contacts|].status == StatusNameMapping[i].1
    ensures StatusNameMapping[i].0 !in ImportRow(db, defaultStatus, f).0.statuses
  {
    assert StatusNameMapping[i].0 in AliasNames();
    assert AliasTarget(Lower(f.status)).value == StatusNameMapping[i].1 by {
      AliasAndEnglishAgree(i);
      LowerOfLower(StatusNameMapping[i].0);
    }
    DefaultsAreNotAliases();
  }
}
