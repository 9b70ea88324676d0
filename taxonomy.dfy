/** The status taxonomy: the four default statuses, the table of Polish
    aliases with their English names, and the idempotent seeding of the
    defaults that runs when the application starts and whenever a contact
    form is built. */
module Taxonomy {
  import opened Wrappers
  import opened Strings
  import opened Store

  const DefaultStatuses: seq<string> := ["new", "in progress", "lost", "outdated"]

  /** `STATUS_NAME_MAPPING`, in its declaration order: lower-case Polish
      alias, then the English status it stands for. */
  const StatusNameMapping: seq<(string, string)> :=
    [("nowy", "new"), ("zagubiony", "lost"), ("w trakcie", "in progress"), ("nieaktualny", "outdated")]

  function AliasNames(): set<string> {
    set i | 0 <= i < |StatusNameMapping| :: StatusNameMapping[i].0
  }

  /** `STATUS_NAME_MAPPING.get(key)`: the English name for an alias. */
  function AliasTarget(key: string): (r: Option<string>)
    ensures r.Some? <==> key in AliasNames()
    ensures r.Some? ==> r.value in DefaultStatuses
  {
    AliasTargetFrom(StatusNameMapping, key)
  }

  function AliasTargetFrom(table: seq<(string, string)>, key: string): (r: Option<string>)
    ensures r.Some? <==> exists i :: 0 <= i < |table| && table[i].0 == key
    ensures r.Some? ==> exists i :: 0 <= i < |table| && table[i] == (key, r.value)
  {
    if table == [] then None
    else if table[0].0 == key then Some(table[0].1)
    else
      var r := AliasTargetFrom(table[1..], key);
      assert forall i :: 1 <= i < |table| ==> table[i] == table[1..][i - 1];
      r
  }

  /** The status name an import row asks for: the trimmed cell is lower-cased
      only to look it up among the aliases; an alias becomes its English
      name, anything else is kept as written. The result is never an alias,
      whatever its case. */
  function NormalizeStatusName(name: string): (r: string)
    ensures Lower(name) in AliasNames() ==> r in DefaultStatuses && r == AliasTarget(Lower(name)).value
    ensures Lower(name) !in AliasNames() ==> r == name
    ensures Lower(r) !in AliasNames()
  {
    match AliasTarget(Lower(name))
    case Some(english) => DefaultsAreNotAliases(); english
    case None => name
  }

  /** None of the default names, in any case, is an alias. */
  lemma DefaultsAreNotAliases()
    ensures forall d :: d in DefaultStatuses ==> Lower(d) == d && d !in AliasNames()
  {
    forall d | d in DefaultStatuses
      ensures Lower(d) == d
    {
      LowerOfLower(d);
    }
    assert AliasNames() == {"nowy", "zagubiony", "w trakcie", "nieaktualny"} by {
      assert StatusNameMapping[0].0 == "nowy";
      assert StatusNameMapping[1].0 == "zagubiony";
      assert StatusNameMapping[2].0 == "w trakcie";
      assert StatusNameMapping[3].0 == "nieaktualny";
    }
  }

  /** Normalising twice gives the same name as normalising once, and an alias
      normalises to the same status as its English name. */
  lemma NormalizeIdempotent(name: string)
    ensures NormalizeStatusName(NormalizeStatusName(name)) == NormalizeStatusName(name)
  {
  }

  lemma AliasAndEnglishAgree(i: nat)
    requires i < |StatusNameMapping|
    ensures NormalizeStatusName(StatusNameMapping[i].0) == StatusNameMapping[i].1
    ensures NormalizeStatusName(StatusNameMapping[i].1) == StatusNameMapping[i].1
  {
    DefaultsAreNotAliases();
    var (alias, english) := StatusNameMapping[i];
    LowerOfLower(alias);
    assert AliasTarget(alias) == Some(english);
  }

  /** The default statuses as a set. */
  function DefaultSet(): set<string> {
    set d | d in DefaultStatuses
  }

  /** `get_or_create` of each default status in turn. Existing statuses are
      kept, the missing defaults are added and nothing else changes, so a
      second seeding changes nothing. */
  method SeedDefaults(db: Db) returns (db': Db)
    ensures db'.statuses == db.statuses + DefaultSet()
    ensures |db'.statuses| == |db.statuses| + |DefaultSet() - db.statuses|
    ensures db'.contacts == db.contacts && db'.clock == db.clock
    ensures DefaultSet() <= db.statuses ==> db' == db
    ensures Valid(db) ==> Valid(db')
  {
    db' := db;
    var i := 0;
    while i < |DefaultStatuses|
      invariant 0 <= i <= |DefaultStatuses|
      invariant db'.statuses == db.statuses + (set d | d in DefaultStatuses[..i])
      invariant db'.contacts == db.contacts && db'.clock == db.clock
    {
      var (next, _) := GetOrCreateStatus(db', DefaultStatuses[i]);
      assert DefaultStatuses[..i + 1] == DefaultStatuses[..i] + [DefaultStatuses[i]];
      db' := next;
      i := i + 1;
    }
    assert DefaultStatuses[..i] == DefaultStatuses;
    SizeOfUnion(db.statuses, DefaultSet());

  }

  lemma SizeOfUnion(a: set<string>, b: set<string>)
    ensures |a + b| == |a| + |b - a|
  {
    assert a + b == a + (b - a);
    assert a * (b - a) == {};
  }
}
