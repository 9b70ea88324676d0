/** The `normalize_statuses` management command: contacts filed under a
    Polish status are moved to the English one, and each Polish status that
    existed is deleted once no contact uses it. */
module NormalizeStatuses {
  import opened Wrappers
  import opened Store
  import opened Taxonomy

  /** The number of contacts whose status is one of `names`
      (`Contact.objects.filter(status__in=...).count()`). */
  function CountIn(cs: seq<Contact>, names: set<string>): nat {
    if cs == [] then 0 else (if cs[0].status in names then 1 else 0) + CountIn(cs[1..], names)
  }

  /** `Contact.objects.filter(status=from).update(status=to)`: only the
      status of the matching contacts changes. */
  function Reassign(cs: seq<Contact>, from: string, to: string): (r: seq<Contact>)
    ensures |r| == |cs|
    ensures forall j :: 0 <= j < |cs| ==>
              r[j] == if cs[j].status == from then cs[j].(status := to) else cs[j]
  {
    seq(|cs|, j requires 0 <= j < |cs| => if cs[j].status == from then cs[j].(status := to) else cs[j])
  }

  /** The English name of a Polish status name; other names are kept. */
  function Translate(name: string): string {
    match AliasTarget(name)
    case Some(english) => english
    case None => name
  }

  /** The Polish names among the first `i` entries of the mapping. */
  function Done(i: nat): set<string>
    requires i <= |StatusNameMapping|
  {
    set k | 0 <= k < i :: StatusNameMapping[k].0
  }

  /** The English names the command get_or_creates: those whose Polish name
      among the first `i` entries existed. */
  function Targets(statuses: set<string>, i: nat): set<string>
    requires i <= |StatusNameMapping|
  {
    set k | 0 <= k < i && StatusNameMapping[k].0 in statuses :: StatusNameMapping[k].1
  }

  /** What the command does to one contact. */
  function MigratedContact(c: Contact, names: set<string>): Contact {
    if c.status in names then c.(status := Translate(c.status)) else c
  }

  /** After the whole table, the names handled are exactly the aliases. */
  lemma DoneAll()
    ensures Done(|StatusNameMapping|) == AliasNames()
  {
  }

  /** The next entry's Polish name is new: the names handled grow by
      exactly that name. */
  lemma DoneStep(i: nat)
    requires i < |StatusNameMapping|
    ensures Done(i + 1) == Done(i) + {StatusNameMapping[i].0}
    ensures StatusNameMapping[i].0 !in Done(i)
  {
    forall k | 0 <= k < i
      ensures StatusNameMapping[k].0 != StatusNameMapping[i].0
    {
      PolishDistinct(k, i);
    }
  }

  lemma {:induction false} CountSplit(cs: seq<Contact>, names: set<string>, p: string)
    requires p !in names
    ensures CountIn(cs, names + {p}) == CountIn(cs, names) + CountIn(cs, {p})
  {
    if cs != [] {
      CountSplit(cs[1..], names, p);
    }
  }

  /** Two contact lists that agree, position by position, on which contacts
      have status `p` have the same number of them. */
  lemma {:induction false} CountAgrees(cs: seq<Contact>, ds: seq<Contact>, p: string)
    requires |cs| == |ds|
    requires forall j :: 0 <= j < |cs| ==> (cs[j].status == p <==> ds[j].status == p)
    ensures CountIn(cs, {p}) == CountIn(ds, {p})
  {
    if cs != [] {
      CountAgrees(cs[1..], ds[1..], p);
    }
  }

  lemma {:induction false} CountNone(cs: seq<Contact>, names: set<string>)
    requires forall c <- cs :: c.status !in names
    ensures CountIn(cs, names) == 0
  {
    if cs != [] {
      CountNone(cs[1..], names);
    }
  }

  /** The effect of one pass of the loop, moving `polish` to `english`:
      nothing when `polish` does not exist; otherwise `polish` is replaced by
      `english` in the table and in every contact that had it. The store
      stays consistent and `count` is the number of contacts moved. */
  ghost predicate Moved(db: Db, db': Db, polish: string, english: string, count: nat) {
    && Valid(db') && db'.clock == db.clock
    && (polish !in db.statuses ==> db' == db && count == 0)
    && (polish in db.statuses ==> db'.statuses == (db.statuses - {polish}) + {english})
    && (polish in db.statuses ==> db'.contacts == Reassign(db.contacts, polish, english))
    && count == CountIn(db.contacts, {polish})
  }

  /** One pass of the command's loop: `ContactStatus.DoesNotExist` when the
      Polish status is missing (nothing happens); otherwise the English
      status is get_or_created, the contacts are moved to it, and the now
      unused Polish status is deleted. `count` is the number of contacts
      moved. */
  method MigrateStatus(db: Db, polish: string, english: string) returns (db': Db, count: nat)
    requires Valid(db) && polish != english
    ensures Moved(db, db', polish, english, count)
  {
    if polish !in db.statuses {
      CountNone(db.contacts, {polish});
      return db, 0;
    }
    var (withEnglish, _) := GetOrCreateStatus(db, english);
    db' := withEnglish;
    count := CountIn(db'.contacts, {polish});
    if count > 0 {
      db' := db'.(contacts := Reassign(db'.contacts, polish, english));
    }
    ReassignKeepsStore(withEnglish, polish, english);
    var deleted := DeleteStatus(db', polish);
    if deleted.Ok? {
      db' := deleted.value;
    }
  }

  lemma PolishDistinct(a: nat, b: nat)
    requires a < b < |StatusNameMapping|
    ensures StatusNameMapping[a].0 != StatusNameMapping[b].0
  {
  }

  /** Moving every contact from `polish` to an existing `english` status keeps
      the store consistent and leaves `polish` unreferenced; when no contact
      had `polish`, the move changes nothing. */
  lemma ReassignKeepsStore(db: Db, polish: string, english: string)
    requires Valid(db) && english in db.statuses && polish != english
    ensures Valid(db.(contacts := Reassign(db.contacts, polish, english)))
    ensures !Referenced(db.(contacts := Reassign(db.contacts, polish, english)), polish)
    ensures CountIn(db.contacts, {polish}) == 0 ==> Reassign(db.contacts, polish, english) == db.contacts
  {
    if CountIn(db.contacts, {polish}) == 0 {
      forall j | 0 <= j < |db.contacts|
        ensures db.contacts[j].status != polish
      {
        if db.contacts[j].status == polish {
          CountPositive(db.contacts, polish, j);
        }
      }
    }
  }

  lemma {:induction false} CountPositive(cs: seq<Contact>, p: string, j: nat)
    requires j < |cs| && cs[j].status == p
    ensures CountIn(cs, {p}) > 0
  {
    if j > 0 {
      CountPositive(cs[1..], p, j - 1);
    }
  }

  /** What the `i`-th pass of the loop does to one contact, seen from the
      contact the command started with: after `i` passes it has the `i`-th
      Polish status exactly when it had it at the start, and moving that
      status brings it to its state after `i + 1` passes. */
  lemma ContactStep(c: Contact, i: nat)
    requires i < |StatusNameMapping|
    ensures MigratedContact(c, Done(i)).status == StatusNameMapping[i].0 <==> c.status == StatusNameMapping[i].0
    ensures MigratedContact(c, Done(i + 1))
              == if MigratedContact(c, Done(i)).status == StatusNameMapping[i].0
                 then MigratedContact(c, Done(i)).(status := StatusNameMapping[i].1)
                 else MigratedContact(c, Done(i))
  {
    var (polish, english) := StatusNameMapping[i];
    DoneStep(i);
    if c.status in Done(i) {
      var k :| 0 <= k < i && StatusNameMapping[k].0 == c.status;
      TranslateEntry(k);
      EnglishIsNotPolish(k, i);
    } else if c.status == polish {
      TranslateEntry(i);
    }
  }

  lemma TranslateEntry(k: nat)
    requires k < |StatusNameMapping|
    ensures Translate(StatusNameMapping[k].0) == StatusNameMapping[k].1
  {
    assert AliasTarget(StatusNameMapping[k].0) == Some(StatusNameMapping[k].1);
  }

  lemma EnglishIsNotPolish(a: nat, b: nat)
    requires a < |StatusNameMapping| && b < |StatusNameMapping|
    ensures StatusNameMapping[a].1 != StatusNameMapping[b].0
  {
    DefaultsAreNotAliases();
    assert StatusNameMapping[b].0 in AliasNames();
  }

  /** One pass of the loop over the whole contact list: it counts exactly
      the contacts that originally had the `i`-th Polish status, and moving
      them brings the list to its state after `i + 1` passes. */
  lemma MigrationStep(db: Db, cur: seq<Contact>, i: nat)
    requires Valid(db) && i < |StatusNameMapping|
    requires |cur| == |db.contacts|
    requires forall j :: 0 <= j < |db.contacts| ==> cur[j] == MigratedContact(db.contacts[j], Done(i))
    ensures CountIn(cur, {StatusNameMapping[i].0}) == CountIn(db.contacts, {StatusNameMapping[i].0})
    ensures StatusNameMapping[i].0 in db.statuses ==>
              forall j :: 0 <= j < |db.contacts| ==>
                Reassign(cur, StatusNameMapping[i].0, StatusNameMapping[i].1)[j]
                  == MigratedContact(db.contacts[j], Done(i + 1))
    ensures StatusNameMapping[i].0 !in db.statuses ==>
              forall j :: 0 <= j < |db.contacts| ==> cur[j] == MigratedContact(db.contacts[j], Done(i + 1))
  {
    forall j | 0 <= j < |db.contacts|
      ensures cur[j].status == StatusNameMapping[i].0 <==> db.contacts[j].status == StatusNameMapping[i].0
      ensures MigratedContact(db.contacts[j], Done(i + 1))
                == if cur[j].status == StatusNameMapping[i].0
                   then cur[j].(status := StatusNameMapping[i].1) else cur[j]
    {
      ContactStep(db.contacts[j], i);
    }
    CountAgrees(cur, db.contacts, StatusNameMapping[i].0);
  }

  /** One pass of the loop over the status table: the Polish status is
      present exactly when it existed at the start, and replacing it by its
      English status brings the table to its state after `i + 1` passes. */
  lemma StatusesStep(statuses: set<string>, cur: set<string>, i: nat)
    requires i < |StatusNameMapping|
    requires cur == (statuses - Done(i)) + Targets(statuses, i)
    ensures StatusNameMapping[i].0 in cur <==> StatusNameMapping[i].0 in statuses
    ensures StatusNameMapping[i].0 in statuses ==>
              (cur - {StatusNameMapping[i].0}) + {StatusNameMapping[i].1}
                == (statuses - Done(i + 1)) + Targets(statuses, i + 1)
    ensures StatusNameMapping[i].0 !in statuses ==>
              cur == (statuses - Done(i + 1)) + Targets(statuses, i + 1)
  {
    var (polish, english) := StatusNameMapping[i];
    DoneStep(i);
    assert polish !in Targets(statuses, i) by {
      if polish in Targets(statuses, i) {
        var k :| 0 <= k < i && StatusNameMapping[k].0 in statuses && StatusNameMapping[k].1 == polish;
        EnglishIsNotPolish(k, i);
      }
    }
    if polish in statuses {
      assert Targets(statuses, i + 1) == Targets(statuses, i) + {english};
    } else {
      assert Targets(statuses, i + 1) == Targets(statuses, i);
    }
  }

  /** The state of the command after the first `i` passes of its loop,
      having counted `migrated` moves, seen from the store `db` it started
      from. */
  ghost predicate MigratedUpTo(db: Db, cur: Db, migrated: nat, i: nat)
    requires i <= |StatusNameMapping|
  {
    && Valid(cur) && cur.clock == db.clock
    && cur.statuses == (db.statuses - Done(i)) + Targets(db.statuses, i)
    && |cur.contacts| == |db.contacts|
    && (forall j :: 0 <= j < |db.contacts| ==> cur.contacts[j] == MigratedContact(db.contacts[j], Done(i)))
    && migrated == CountIn(db.contacts, Done(i))
  }

  /** One pass of the loop takes the command from its state after `i`
      passes to its state after `i + 1`. */
  lemma PassStep(db: Db, before: Db, after: Db, migrated: nat, count: nat, i: nat)
    requires Valid(db) && i < |StatusNameMapping|
    requires MigratedUpTo(db, before, migrated, i)
    requires Moved(before, after, StatusNameMapping[i].0, StatusNameMapping[i].1, count)
    ensures MigratedUpTo(db, after, migrated + count, i + 1)
  {
    var polish := StatusNameMapping[i].0;
    StatusesStep(db.statuses, before.statuses, i);
    MigrationStep(db, before.contacts, i);
    DoneStep(i);
    CountSplit(db.contacts, Done(i), polish);
    if polish in before.statuses {
      assert after.contacts == Reassign(before.contacts, polish, StatusNameMapping[i].1);
    } else {
      assert after == before;
    }
  }

  /** The loop of `Command.handle`: each entry of the mapping in turn, in
      its declaration order. */
  method MigrateAll(db: Db) returns (db': Db, migrated: nat)
    requires Valid(db)
    ensures MigratedUpTo(db, db', migrated, |StatusNameMapping|)
  {
    db' := db;
    migrated := 0;
    assert Done(0) == {};
    CountNone(db.contacts, {});
    var i := 0;
    while i < |StatusNameMapping|
      invariant 0 <= i <= |StatusNameMapping|
      invariant MigratedUpTo(db, db', migrated, i)
    {
      var (polish, english) := StatusNameMapping[i];
      ghost var before := db';
      var count;
      db', count := MigrateStatus(db', polish, english);
      PassStep(db, before, db', migrated, count, i);
      migrated := migrated + count;
      i := i + 1;
    }
  }

  /** A migrated contact never carries an alias status. */
  lemma MigratedIsNotAlias(c: Contact)
    ensures MigratedContact(c, AliasNames()).status !in AliasNames()
  {
    if c.status in AliasNames() {
      DefaultsAreNotAliases();
    }
  }

  /** With no Polish status in the table, the migration changes nothing and
      counts nothing. */
  lemma NothingToMigrate(db: Db)
    requires Valid(db) && db.statuses * AliasNames() == {}
    ensures (db.statuses - AliasNames()) + Targets(db.statuses, |StatusNameMapping|) == db.statuses
    ensures forall j :: 0 <= j < |db.contacts| ==> MigratedContact(db.contacts[j], AliasNames()) == db.contacts[j]
    ensures CountIn(db.contacts, AliasNames()) == 0
  {
    DoneAll();
    forall c | c in db.contacts
      ensures c.status !in AliasNames()
    {
      assert c.status in db.statuses;
      assert c.status !in db.statuses * AliasNames();
    }
    CountNone(db.contacts, AliasNames());
    forall k | 0 <= k < |StatusNameMapping|
      ensures StatusNameMapping[k].0 !in db.statuses
    {
      var polish := StatusNameMapping[k].0;
      assert polish in AliasNames();
      assert polish !in db.statuses * AliasNames();
    }
  }

  /** `Command.handle`. The result says how many contacts moved and whether
      the "nothing to migrate" warning was written. */
  method Handle(db: Db) returns (db': Db, migrated: nat, warned: bool)
    requires Valid(db)
    ensures Valid(db') && db'.clock == db.clock
    ensures forall c <- db'.contacts :: c.status !in AliasNames()
    ensures forall n :: n in AliasNames() ==> n !in db'.statuses
    ensures db'.statuses == (db.statuses - AliasNames()) + Targets(db.statuses, |StatusNameMapping|)
    ensures |db'.contacts| == |db.contacts|
    ensures forall j :: 0 <= j < |db.contacts| ==> db'.contacts[j] == MigratedContact(db.contacts[j], AliasNames())
    ensures migrated == CountIn(db.contacts, AliasNames())
    ensures warned <==> migrated == 0
    ensures db.statuses * AliasNames() == {} ==> db' == db && migrated == 0 && warned
  {
    DoneAll();
    db', migrated := MigrateAll(db);
    warned := migrated == 0;
    forall c | c in db'.contacts
      ensures c.status !in AliasNames()
    {
      var j :| 0 <= j < |db'.contacts| && db'.contacts[j] == c;
      MigratedIsNotAlias(db.contacts[j]);
    }
    if db.statuses * AliasNames() == {} {
      NothingToMigrate(db);
      assert db'.contacts == db.contacts;
    }
  }
}
