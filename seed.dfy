/** The database seed script: it clears the data tables in reverse
    dependency order, replaces the admin table by a fixed fixture of one
    super admin and one moderator, and then fills each data table from its
    seed file, in file order. The ORM client is modelled as a map from the
    accessor name a table is looked up by (`prisma[name]`) to its rows; the
    parsed contents of the seed files are an input. */
module Seed {
  import opened Common
  import AuthController

  /** One parsed record of a seed file. */
  datatype Row = Row(json: string)

  /** The seed files, parents before children. */
  const ORDERED_FILE_NAMES: seq<string> := [
    "products.json",
    "expenseSummary.json",
    "sales.json",
    "salesSummary.json",
    "purchases.json",
    "purchaseSummary.json",
    "users.json",
    "expenses.json",
    "expenseByCategory.json"
  ]

  // ---------------------------------------------------------------------------
  // Names

  /** The position of the last '.' of a name, if it has one. */
  function LastDot(s: string): (r: Option<nat>)
    ensures r.Some? ==> r.value < |s| && s[r.value] == '.' && forall j :: r.value < j < |s| ==> s[j] != '.'
    ensures r.None? ==> forall j :: 0 <= j < |s| ==> s[j] != '.'
  {
    if s == [] then None
    else if s[|s| - 1] == '.' then Some(|s| - 1)
    else LastDot(s[..|s| - 1])
  }

  /** `path.basename(f, path.extname(f))` for a bare file name: everything
      before the last dot, unless that dot is the first character (a dot
      file has no extension) or the name is "..". */
  function StripExtension(f: string): (r: string)
    ensures r <= f
    ensures r == f || (0 < |r| && f[|r|] == '.' && forall j :: |r| < j < |f| ==> f[j] != '.')
    ensures 0 < |f| ==> 0 < |r| && r[0] == f[0]
    ensures r == f <==> f == ".." || forall j :: 0 < j < |f| ==> f[j] != '.'
  {
    match LastDot(f)
    case None => f
    case Some(i) => if 0 < i && f != ".." then f[..i] else f
  }

  predicate IsLowerAscii(c: char) {
    'a' <= c <= 'z'
  }

  /** `toUpperCase()` on one character, for ASCII letters. */
  function UpperAscii(c: char): char {
    if IsLowerAscii(c) then (c as int - 32) as char else c
  }

  /** `s.charAt(0).toUpperCase() + s.slice(1)`: same length, the first
      character upper-cased (so never a lower-case letter), the rest kept. */
  function Capitalize(s: string): (r: string)
    ensures |r| == |s|
    ensures 0 < |s| ==> r[0] == UpperAscii(s[0]) && !IsLowerAscii(r[0]) && r[1..] == s[1..]
  {
    if s == [] then [] else [UpperAscii(s[0])] + s[1..]
  }

  /** The name deleteAllData looks a table up by: the base name with its
      first character upper-cased and the rest untouched. */
  function ModelName(f: string): (r: string)
    ensures |r| == |StripExtension(f)|
    ensures 0 < |f| ==>
              && r[0] == UpperAscii(f[0]) && !IsLowerAscii(r[0])
              && r[1..] == StripExtension(f)[1..]
  {
    Capitalize(StripExtension(f))
  }

  /** The name the seeding loop looks a table up by. */
  function SeedKey(f: string): string {
    StripExtension(f)
  }

  /** `xs.slice().reverse()`. */
  function Reverse<T>(xs: seq<T>): (r: seq<T>)
    ensures |r| == |xs|
    ensures forall i :: 0 <= i < |xs| ==> r[i] == xs[|xs| - 1 - i]
  {
    if xs == [] then [] else [xs[|xs| - 1]] + Reverse(xs[..|xs| - 1])
  }

  /** `orderedFileNames.map(<model name>).reverse()` (as written). */
  function DeletionOrder(files: seq<string>): (r: seq<string>)
    ensures |r| == |files|
    ensures forall i :: 0 <= i < |files| ==> r[i] == ModelName(files[|files| - 1 - i])
  {
    Reverse(seq(|files|, i requires 0 <= i < |files| => ModelName(files[i])))
  }

  /** The deletion order with the names the seeding loop uses. */
  function IntendedDeletionOrder(files: seq<string>): (r: seq<string>)
    ensures |r| == |files|
    ensures forall i :: 0 <= i < |files| ==> r[i] == SeedKey(files[|files| - 1 - i])
    ensures forall f :: f in files ==> SeedKey(f) in r
  {
    var keys := seq(|files|, i requires 0 <= i < |files| => SeedKey(files[i]));
    var r := Reverse(keys);
    assert forall i :: 0 <= i < |files| ==> r[|files| - 1 - i] == SeedKey(files[i]);
    r
  }

  /** The premise of the deletion finding: the ORM client answers a table
      only under its lower-camel-case accessor name, the one the seeding loop
      uses. Whether the client also answers the capitalised model name is a
      property of the ORM's runtime, not of this script. */
  predicate LowerCamel(name: string) {
    0 < |name| && IsLowerAscii(name[0])
  }

  /** Under the premise that the client answers only lower-camel-case
      names, no deletion name is found. */
  lemma DeletionMissesLowerCamelAccessors(files: seq<string>, accessors: set<string>)
    requires forall k :: k in accessors ==> LowerCamel(k)
    ensures forall i :: 0 <= i < |files| ==> DeletionOrder(files)[i] !in accessors
  {
    forall i | 0 <= i < |files|
      ensures DeletionOrder(files)[i] !in accessors
    {
      var f := files[|files| - 1 - i];
      assert 0 < |ModelName(f)| ==> !IsLowerAscii(ModelName(f)[0]);
    }
  }

  /** The same for the script's own file list. */
  lemma SeedFilesNeverCleared(accessors: set<string>)
    requires forall k :: k in accessors ==> LowerCamel(k)
    ensures forall name :: name in DeletionOrder(ORDERED_FILE_NAMES) ==> name !in accessors
  {
    DeletionMissesLowerCamelAccessors(ORDERED_FILE_NAMES, accessors);
  }

  // ---------------------------------------------------------------------------
  // Tables

  /** The names of a list that are not keys of the client, in list order. */
  function NotFound(names: seq<string>, keys: set<string>): (r: seq<string>)
    ensures forall n :: n in r <==> n in names && n !in keys
  {
    if names == [] then []
    else NotFound(names[..|names| - 1], keys) +
         (if names[|names| - 1] in keys then [] else [names[|names| - 1]])
  }

  /** The files whose table the client has no accessor for, in file order. */
  function SkippedFiles(files: seq<string>, keys: set<string>): (r: seq<string>)
    ensures forall f :: f in r <==> f in files && SeedKey(f) !in keys
  {
    if files == [] then []
    else SkippedFiles(files[..|files| - 1], keys) +
         (if SeedKey(files[|files| - 1]) in keys then [] else [files[|files| - 1]])
  }

  /** The rows the seed files give one table, in file order. */
  function RowsFor(key: string, files: seq<string>, contents: seq<seq<Row>>): seq<Row>
    requires |contents| == |files|
  {
    if files == [] then []
    else RowsFor(key, files[..|files| - 1], contents[..|files| - 1]) +
         (if SeedKey(files[|files| - 1]) == key then contents[|files| - 1] else [])
  }

  /** The seeding loop's effect: each file's records appended to its table,
      a file without a table skipped. */
  function Seeded(tables: map<string, seq<Row>>, files: seq<string>, contents: seq<seq<Row>>): map<string, seq<Row>>
    requires |contents| == |files|
  {
    if files == [] then tables
    else
      var n := |files| - 1;
      var before := Seeded(tables, files[..n], contents[..n]);
      var key := SeedKey(files[n]);
      if key in before then before[key := before[key] + contents[n]] else before
  }

  /** Seeding adds no table and appends to each table exactly the records
      of the files named after it, in file order. */
  lemma {:induction false} SeededTables(tables: map<string, seq<Row>>, files: seq<string>, contents: seq<seq<Row>>)
    requires |contents| == |files|
    ensures Seeded(tables, files, contents).Keys == tables.Keys
    ensures forall k :: k in tables ==> Seeded(tables, files, contents)[k] == tables[k] + RowsFor(k, files, contents)
  {
    if files != [] {
      var n := |files| - 1;
      SeededTables(tables, files[..n], contents[..n]);
    }
  }

  /** A name no file is seeded into gets no rows. */
  lemma {:induction false} RowsForOther(key: string, files: seq<string>, contents: seq<seq<Row>>)
    requires |contents| == |files|
    requires forall f :: f in files ==> SeedKey(f) != key
    ensures RowsFor(key, files, contents) == []
  {
    if files != [] {
      var n := |files| - 1;
      assert forall f :: f in files[..n] ==> f in files;
      RowsForOther(key, files[..n], contents[..n]);
    }
  }

  /** The admin fixture, created at two database timestamps. */
  function AdminFixture(t1: int, t2: int): map<string, AuthController.AdminRecord> {
    map[
      "admin-001" := AuthController.AdminRecord("Super Admin", "superadmin@inventory.com", "password123", SUPER_ADMIN, t1),
      "admin-002" := AuthController.AdminRecord("Moderator User", "moderator@inventory.com", "password123", MODERATOR, t2)
    ]
  }

  /** The fixture satisfies the email index and holds exactly one super
      admin, admin-001: the situation the deletion guard protects. */
  lemma AdminFixtureShape(t1: int, t2: int)
    ensures AuthController.EmailsUnique(AdminFixture(t1, t2))
    ensures AuthController.HoldersOf(AdminFixture(t1, t2), SUPER_ADMIN) == {"admin-001"}
    ensures AuthController.CountRole(AdminFixture(t1, t2), SUPER_ADMIN) == 1
    ensures AuthController.CountRole(AdminFixture(t1, t2), MODERATOR) == 1
  {
    var m := AdminFixture(t1, t2);
    assert m.Keys == {"admin-001", "admin-002"};
    assert "admin-001" != "admin-002";
    assert AuthController.HoldersOf(m, SUPER_ADMIN) == {"admin-001"};
    assert AuthController.HoldersOf(m, MODERATOR) == {"admin-002"};
  }

  /** The database as the seed script sees it. */
  class Database {
    var tables: map<string, seq<Row>>
    var admins: map<string, AuthController.AdminRecord>

    constructor (tables0: map<string, seq<Row>>, admins0: map<string, AuthController.AdminRecord>)
      ensures tables == tables0 && admins == admins0
    {
      tables, admins := tables0, admins0;
    }

    /** The loop of deleteAllData: `deleteMany` on every table found, in
        the given order; a name not found is reported and skipped. */
    method ClearModels(names: seq<string>) returns (missing: seq<string>)
      modifies this
      ensures admins == old(admins) && tables.Keys == old(tables.Keys)
      ensures forall k :: k in tables ==> tables[k] == (if k in names then [] else old(tables[k]))
      ensures missing == NotFound(names, old(tables.Keys))
    {
      missing := [];
      var i := 0;
      while i < |names|
        invariant 0 <= i <= |names|
        invariant admins == old(admins) && tables.Keys == old(tables.Keys)
        invariant forall k :: k in tables ==> tables[k] == (if k in names[..i] then [] else old(tables[k]))
        invariant missing == NotFound(names[..i], old(tables.Keys))
      {
        assert names[..i + 1] == names[..i] + [names[i]];
        assert names[..i + 1][..i] == names[..i];
        var name := names[i];
        if name in tables {
          tables := tables[name := []];
        } else {
          missing := missing + [name];
        }
        i := i + 1;
      }
      assert names[..i] == names;
    }

    /** deleteAllData as written: the capitalised names, in reverse order. */
    method DeleteAllData(files: seq<string>) returns (missing: seq<string>)
      modifies this
      ensures admins == old(admins) && tables.Keys == old(tables.Keys)
      ensures forall k :: k in tables ==> tables[k] == (if k in DeletionOrder(files) then [] else old(tables[k]))
      ensures missing == NotFound(DeletionOrder(files), old(tables.Keys))
    {
      missing := ClearModels(DeletionOrder(files));
    }

    /** deleteAllData with the seeding loop's names, in reverse order. */
    method DeleteAllDataIntended(files: seq<string>) returns (missing: seq<string>)
      modifies this
      ensures admins == old(admins) && tables.Keys == old(tables.Keys)
      ensures forall f :: f in files && SeedKey(f) in tables ==> tables[SeedKey(f)] == []
      ensures forall k :: k in tables ==> tables[k] == (if k in IntendedDeletionOrder(files) then [] else old(tables[k]))
      ensures missing == NotFound(IntendedDeletionOrder(files), old(tables.Keys))
    {
      missing := ClearModels(IntendedDeletionOrder(files));
    }

    /** Clear the admin table, then create the super admin and the
        moderator of the fixture. */
    method SeedAdmins(t1: int, t2: int)
      modifies this
      ensures tables == old(tables)
      ensures admins == AdminFixture(t1, t2)
    {
      admins := map[];
      admins := admins["admin-001" := AuthController.AdminRecord("Super Admin", "superadmin@inventory.com", "password123", SUPER_ADMIN, t1)];
      admins := admins["admin-002" := AuthController.AdminRecord("Moderator User", "moderator@inventory.com", "password123", MODERATOR, t2)];
    }

    /** The inner loop of the seeding loop: each record of one file
        created in order in its table. */
    method CreateRows(key: string, data: seq<Row>)
      requires key in tables
      modifies this
      ensures admins == old(admins)
      ensures tables == old(tables)[key := old(tables[key]) + data]
    {
      var j := 0;
      assert old(tables[key]) + data[..0] == old(tables[key]);
      while j < |data|
        invariant 0 <= j <= |data|
        invariant admins == old(admins)
        invariant tables == old(tables)[key := old(tables[key]) + data[..j]]
      {
        assert old(tables[key]) + data[..j + 1] == (old(tables[key]) + data[..j]) + [data[j]];
        tables := tables[key := tables[key] + [data[j]]];
        j := j + 1;
      }
      assert data[..j] == data;
    }

    /** The seeding loop: files in order, each file's records created in
        order; a file with no table is reported and skipped. */
    method SeedTables(files: seq<string>, contents: seq<seq<Row>>) returns (skipped: seq<string>)
      requires |contents| == |files|
      modifies this
      ensures admins == old(admins)
      ensures tables == Seeded(old(tables), files, contents)
      ensures skipped == SkippedFiles(files, old(tables.Keys))
    {
      skipped := [];
      var i := 0;
      while i < |files|
        invariant 0 <= i <= |files|
        invariant admins == old(admins)
        invariant tables == Seeded(old(tables), files[..i], contents[..i])
        invariant tables.Keys == old(tables.Keys)
        invariant skipped == SkippedFiles(files[..i], old(tables.Keys))
      {
        SeedStep(old(tables), files, contents, i);
        var key := SeedKey(files[i]);
        if key !in tables {
          skipped := skipped + [files[i]];
        } else {
          CreateRows(key, contents[i]);
        }
        i := i + 1;
      }
      assert files[..i] == files && contents[..i] == contents;
    }
  }

  /** One turn of the seeding loop, on the functions that specify it. */
  lemma SeedStep(tables: map<string, seq<Row>>, files: seq<string>, contents: seq<seq<Row>>, i: nat)
    requires |contents| == |files| && i < |files|
    ensures Seeded(tables, files[..i], contents[..i]).Keys == tables.Keys
    ensures var before := Seeded(tables, files[..i], contents[..i]);
            var key := SeedKey(files[i]);
            Seeded(tables, files[..i + 1], contents[..i + 1]) ==
              (if key in before then before[key := before[key] + contents[i]] else before)
    ensures SkippedFiles(files[..i + 1], tables.Keys) ==
              SkippedFiles(files[..i], tables.Keys) + (if SeedKey(files[i]) in tables then [] else [files[i]])
  {
    assert files[..i + 1][..i] == files[..i] && contents[..i + 1][..i] == contents[..i];
    assert files[..i + 1][i] == files[i] && contents[..i + 1][i] == contents[i];
    SeededTables(tables, files[..i], contents[..i]);
  }

  /** deleteAllData as written, under the premise that the client answers
      only lower-camel-case names: every name is reported missing and no
      table is cleared, so the seeding loop appends to the old rows. */
  method DeleteAllDataClearsNothing(db: Database) returns (missing: seq<string>)
    requires forall k :: k in db.tables ==> LowerCamel(k)
    modifies db
    ensures db.tables == old(db.tables) && db.admins == old(db.admins)
    ensures missing == DeletionOrder(ORDERED_FILE_NAMES)
  {
    ghost var keys := db.tables.Keys;
    DeletionMissesLowerCamelAccessors(ORDERED_FILE_NAMES, keys);
    missing := db.DeleteAllData(ORDERED_FILE_NAMES);
    NotFoundOfAbsent(DeletionOrder(ORDERED_FILE_NAMES), keys);
  }

  /** When no name of a list is a key, every name is reported. */
  lemma {:induction false} NotFoundOfAbsent(names: seq<string>, keys: set<string>)
    requires forall i :: 0 <= i < |names| ==> names[i] !in keys
    ensures NotFound(names, keys) == names
  {
    if names != [] {
      var n := |names| - 1;
      NotFoundOfAbsent(names[..n], keys);
      assert names[..n] + [names[n]] == names;
    }
  }

  /** The seed script's main, with the deletion corrected: clear the data
      tables, write the admin fixture, then seed the data tables. */
  method SeedMain(db: Database, contents: seq<seq<Row>>, t1: int, t2: int)
    returns (missing: seq<string>, skipped: seq<string>)
    requires |contents| == |ORDERED_FILE_NAMES|
    modifies db
    ensures db.admins == AdminFixture(t1, t2)
    ensures db.tables.Keys == old(db.tables.Keys)
    ensures forall k :: k in db.tables ==>
              db.tables[k] == (if k in IntendedDeletionOrder(ORDERED_FILE_NAMES) then [] else old(db.tables[k]))
                              + RowsFor(k, ORDERED_FILE_NAMES, contents)
    ensures skipped == SkippedFiles(ORDERED_FILE_NAMES, old(db.tables.Keys))
  {
    missing := db.DeleteAllDataIntended(ORDERED_FILE_NAMES);
    db.SeedAdmins(t1, t2);
    ghost var cleared := db.tables;
    skipped := db.SeedTables(ORDERED_FILE_NAMES, contents);
    SeededTables(cleared, ORDERED_FILE_NAMES, contents);
  }
}
