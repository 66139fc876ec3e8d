/** The `create_categories` management command: a get-or-create of each
    default category name, in list order, counting the categories it had
    to create. Console messages are not modelled. */
module CreateCategories {
  import opened Wrappers
  import opened Domain

  /** The default income category names. */
  const IncomeDefaults: seq<string> := [
    "Salary", "Freelance", "Investment Returns", "Business Income", "Gift/Bonus", "Other Income"]

  /** The default expense category names. */
  const ExpenseDefaults: seq<string> := [
    "Food & Dining", "Transportation", "Shopping", "Entertainment", "Bills & Utilities",
    "Healthcare", "Education", "Travel", "Insurance", "Groceries", "Rent/Mortgage",
    "Personal Care", "Other Expenses"]

  /** The default names: the income names, then the expense names. */
  const DefaultNames: seq<string> := IncomeDefaults + ExpenseDefaults

  /** The names of the rows of the category table, in row order. */
  function NamesOf(rows: seq<Category>): (r: seq<string>)
    ensures |r| == |rows| && forall i :: 0 <= i < |rows| ==> r[i] == rows[i].name
  {
    seq(|rows|, i requires 0 <= i < |rows| => rows[i].name)
  }

  /** The table's names after one get-or-create of `name`. */
  function GetOrCreateNames(names: seq<string>, name: string): seq<string> {
    if name in names then names else names + [name]
  }

  /** The table's names after a get-or-create of each of `list`, in order;
      each name adds at most one row. */
  function Seeded(names: seq<string>, list: seq<string>): (r: seq<string>)
    ensures |names| <= |r| <= |names| + |list|
  {
    if list == [] then names
    else GetOrCreateNames(Seeded(names, list[..|list| - 1]), list[|list| - 1])
  }

  /** One get-or-create keeps the existing names in place, leaves the name
      present, and adds one row exactly when the name was missing. */
  lemma GetOrCreateShape(names: seq<string>, name: string)
    ensures var r := GetOrCreateNames(names, name);
      && |r| == |names| + (if name in names then 0 else 1)
      && r[..|names|] == names
      && name in r
  {
  }

  /** The names of `list` that `names` lacks, in list order. */
  function Absent(names: seq<string>, list: seq<string>): (r: seq<string>)
    ensures forall n :: n in r <==> n in list && n !in names
  {
    if list == [] then []
    else
      var r := Absent(names, list[..|list| - 1]) + (if list[|list| - 1] in names then [] else [list[|list| - 1]]);
      assert forall n :: n in list <==> n in list[..|list| - 1] || n == list[|list| - 1] by {
        assert list == list[..|list| - 1] + [list[|list| - 1]];
      }
      r
  }

  /** In a list of distinct names the last one does not occur before it. */
  lemma LastIsNew(list: seq<string>)
    requires Distinct(list) && list != []
    ensures Distinct(list[..|list| - 1])
    ensures list[|list| - 1] !in list[..|list| - 1]
  {
    var front := list[..|list| - 1];
    forall k | 0 <= k < |front| ensures front[k] != list[|list| - 1] {
      assert front[k] == list[k];
    }
  }

  /** Seeding keeps the existing names as they are, in front, and only
      adds listed names: afterwards every listed name is present, and any
      present name was present before or is listed. */
  lemma {:induction false} SeededShape(names: seq<string>, list: seq<string>)
    ensures |Seeded(names, list)| >= |names| && Seeded(names, list)[..|names|] == names
    ensures forall n :: n in Seeded(names, list) <==> n in names || n in list
  {
    if list != [] {
      var front, last := list[..|list| - 1], list[|list| - 1];
      SeededShape(names, front);
      assert list == front + [last];
      assert forall n :: n in list <==> n in front || n == last;
    }
  }

  /** Seeding a table with unique names keeps them unique. */
  lemma {:induction false} SeededDistinct(names: seq<string>, list: seq<string>)
    requires Distinct(names)
    ensures Distinct(Seeded(names, list))
  {
    if list != [] {
      SeededDistinct(names, list[..|list| - 1]);
    }
  }

  /** With distinct listed names, seeding appends exactly the absent
      names, in list order. */
  lemma {:induction false} SeededAppendsAbsent(names: seq<string>, list: seq<string>)
    requires Distinct(list)
    ensures Seeded(names, list) == names + Absent(names, list)
  {
    if list != [] {
      var front, last := list[..|list| - 1], list[|list| - 1];
      LastIsNew(list);
      SeededAppendsAbsent(names, front);
      assert last !in Absent(names, front);
    }
  }

  /** The listed names a table with `names` lacks, as a set. */
  function Missing(names: seq<string>, list: seq<string>): set<string> {
    set n | n in list && n !in names
  }

  /** With distinct listed names, the number of absent names equals the
      number of distinct listed names the table lacks. */
  lemma {:induction false} AbsentCount(names: seq<string>, list: seq<string>)
    requires Distinct(list)
    ensures |Absent(names, list)| == |Missing(names, list)|
  {
    if list == [] {
      assert Missing(names, list) == {};
    } else {
      var front, last := list[..|list| - 1], list[|list| - 1];
      LastIsNew(list);
      AbsentCount(names, front);
      assert list == front + [last];
      MissingStep(names, front, last);
    }
  }

  /** One more listed name adds itself to the missing set when the table
      lacks it, and is not missing already. */
  lemma MissingStep(names: seq<string>, front: seq<string>, last: string)
    requires last !in front
    ensures Missing(names, front + [last]) ==
      Missing(names, front) + (if last in names then {} else {last})
    ensures |Missing(names, front + [last])| ==
      |Missing(names, front)| + (if last in names then 0 else 1)
  {
    var list := front + [last];
    assert forall n :: n in list <==> n in front || n == last;
    assert Missing(names, list) == Missing(names, front) + (if last in names then {} else {last});
  }

  lemma DistinctAppend(s: seq<string>, x: string)
    requires Distinct(s) && x !in s
    ensures Distinct(s + [x])
  {
    var t := s + [x];
    forall i, j | 0 <= i < j < |t| ensures t[i] != t[j] {
      assert t[i] == s[i];
      if j < |s| {
        assert t[j] == s[j];
      }
    }
  }

  /** Seeding a table that already holds every listed name changes nothing. */
  lemma {:induction false} SeededNoop(names: seq<string>, list: seq<string>)
    requires forall n :: n in list ==> n in names
    ensures Seeded(names, list) == names
  {
    if list != [] {
      assert list[|list| - 1] in list;
      assert forall n :: n in list[..|list| - 1] ==> n in list;
      SeededNoop(names, list[..|list| - 1]);
    }
  }

  /** Running the seeding twice is the same as running it once, and the
      second run finds nothing absent. */
  lemma SeedingIdempotent(names: seq<string>, list: seq<string>)
    ensures Seeded(Seeded(names, list), list) == Seeded(names, list)
    ensures Absent(Seeded(names, list), list) == []
  {
    SeededShape(names, list);
    SeededNoop(Seeded(names, list), list);
    AbsentNone(Seeded(names, list), list);
  }

  /** Nothing is absent from a table that holds every listed name. */
  lemma {:induction false} AbsentNone(names: seq<string>, list: seq<string>)
    requires forall n :: n in list ==> n in names
    ensures Absent(names, list) == []
  {
    if list != [] {
      assert list[|list| - 1] in list;
      assert forall n :: n in list[..|list| - 1] ==> n in list;
      AbsentNone(names, list[..|list| - 1]);
    }
  }

  /** The default names are nineteen distinct names, so one run creates
      between 0 and 19 categories. */
  lemma DefaultNamesDistinct(names: seq<string>)
    ensures Distinct(DefaultNames) && |DefaultNames| == 19
    ensures 0 <= |Absent(names, DefaultNames)| <= 19
  {
    IncomeDefaultsDistinct();
    ExpenseDefaultsDistinct();
    DefaultsDisjoint();
    DistinctConcat(IncomeDefaults, ExpenseDefaults);
    AbsentBound(names, DefaultNames);
  }

  lemma IncomeDefaultsDistinct()
    ensures Distinct(IncomeDefaults)
  {
    forall i, j | 0 <= i < j < |IncomeDefaults| ensures IncomeDefaults[i] != IncomeDefaults[j] {
    }
  }

  lemma ExpenseDefaultsDistinct()
    ensures Distinct(ExpenseDefaults)
  {
    forall i, j | 0 <= i < j < |ExpenseDefaults| ensures ExpenseDefaults[i] != ExpenseDefaults[j] {
    }
  }

  lemma DefaultsDisjoint()
    ensures forall i, j :: 0 <= i < |IncomeDefaults| && 0 <= j < |ExpenseDefaults| ==> IncomeDefaults[i] != ExpenseDefaults[j]
  {
    forall i, j | 0 <= i < |IncomeDefaults| && 0 <= j < |ExpenseDefaults|
      ensures IncomeDefaults[i] != ExpenseDefaults[j]
    {
    }
  }

  lemma DistinctConcat(a: seq<string>, b: seq<string>)
    requires Distinct(a) && Distinct(b)
    requires forall i, j :: 0 <= i < |a| && 0 <= j < |b| ==> a[i] != b[j]
    ensures Distinct(a + b)
  {
    var s := a + b;
    forall i, j | 0 <= i < j < |s| ensures s[i] != s[j] {
      if j < |a| {
        assert s[i] == a[i] && s[j] == a[j];
      } else if i >= |a| {
        assert s[i] == b[i - |a|] && s[j] == b[j - |a|];
      } else {
        assert s[i] == a[i] && s[j] == b[j - |a|];
      }
    }
  }

  lemma {:induction false} AbsentBound(names: seq<string>, list: seq<string>)
    ensures |Absent(names, list)| <= |list|
  {
    if list != [] {
      AbsentBound(names, list[..|list| - 1]);
    }
  }

  /** What one run over the default names does to a table's names. */
  lemma SeedingDefaults(names: seq<string>)
    ensures Seeded(names, DefaultNames) == names + Absent(names, DefaultNames)
    ensures |Absent(names, DefaultNames)| == |Missing(names, DefaultNames)|
    ensures forall n :: n in DefaultNames ==> n in Seeded(names, DefaultNames)
  {
    DefaultNamesDistinct(names);
    SeededAppendsAbsent(names, DefaultNames);
    AbsentCount(names, DefaultNames);
    SeededShape(names, DefaultNames);
  }

  /** The position of the row named `name`. */
  function IndexOfName(rows: seq<Category>, name: string): (r: Option<nat>)
    ensures r.Some? ==> r.value < |rows| && rows[r.value].name == name
    ensures r.None? ==> forall i :: 0 <= i < |rows| ==> rows[i].name != name
  {
    if rows == [] then None
    else if rows[|rows| - 1].name == name then Some(|rows| - 1)
    else IndexOfName(rows[..|rows| - 1], name)
  }

  /** Names are unique (the lookup by name returns at most one row),
      primary keys are distinct and below the next key to hand out. */
  ghost predicate TableOk(rows: seq<Category>, nextId: nat) {
    && Distinct(NamesOf(rows))
    && (forall i :: 0 <= i < |rows| ==> rows[i].id < nextId)
    && (forall i, j :: 0 <= i < j < |rows| ==> rows[i].id != rows[j].id)
  }

  /** Inserting a row under a new name with the next key keeps the table
      well formed. */
  lemma TableAppend(rows: seq<Category>, nextId: nat, name: string)
    requires TableOk(rows, nextId) && name !in NamesOf(rows)
    ensures NamesOf(rows + [Category(nextId, name)]) == NamesOf(rows) + [name]
    ensures TableOk(rows + [Category(nextId, name)], nextId + 1)
  {
    var t := rows + [Category(nextId, name)];
    assert t[..|rows|] == rows;
    DistinctAppend(NamesOf(rows), name);
    forall i, j | 0 <= i < j < |t| ensures t[i].id != t[j].id {
      assert t[i] == rows[i];
    }
  }

  /** Seeding one more name is one more get-or-create. */
  lemma SeededStep(names: seq<string>, list: seq<string>, i: nat)
    requires i < |list|
    ensures Seeded(names, list[..i + 1]) == GetOrCreateNames(Seeded(names, list[..i]), list[i])
  {
    assert list[..i + 1][..i] == list[..i];
  }

  /** The category table. */
  class CategoryTable {
    var rows: seq<Category>
    var nextId: nat

    ghost predicate Valid()
      reads this
    {
      TableOk(rows, nextId)
    }

    function Names(): seq<string>
      reads this
    {
      NamesOf(rows)
    }

    constructor ()
      ensures Valid() && rows == [] && nextId == 0
    {
      rows := [];
      nextId := 0;
    }

    /** `Category.objects.get_or_create(name=name)`. */
    method GetOrCreate(name: string) returns (category: Category, created: bool)
      requires Valid()
      modifies this
      ensures Valid()
      ensures created <==> name !in old(Names())
      ensures Names() == GetOrCreateNames(old(Names()), name)
      ensures rows == old(rows) + (if created then [category] else [])
      ensures category in rows && category.name == name
      ensures created ==> category.id == old(nextId) && nextId == old(nextId) + 1
      ensures !created ==> nextId == old(nextId)
    {
      match IndexOfName(rows, name)
      case Some(i) =>
        category, created := rows[i], false;
        assert name in Names() by {
          assert NamesOf(rows)[i] == name;
        }
      case None =>
        category, created := Category(nextId, name), true;
        var next := rows + [category];
        assert name !in Names() && NamesOf(next) == Names() + [name] && TableOk(next, nextId + 1) by {
          assert forall k :: 0 <= k < |rows| ==> NamesOf(rows)[k] != name;
          TableAppend(rows, nextId, name);
        }
        rows, nextId := next, nextId + 1;
    }

    /** The loop of `Command.handle` over a list of names: a get-or-create
        of each, counting the created ones. */
    method SeedNames(list: seq<string>) returns (createdCount: nat)
      requires Valid()
      modifies this
      ensures Valid()
      ensures Names() == Seeded(old(Names()), list)
      ensures |rows| == |old(rows)| + createdCount
      ensures rows[..|old(rows)|] == old(rows)
    {
      ghost var start, startRows := Names(), rows;
      ghost var added: seq<Category> := [];
      createdCount := 0;
      var i := 0;
      while i < |list|
        invariant 0 <= i <= |list|
        invariant Valid()
        invariant Names() == Seeded(start, list[..i])
        invariant rows == startRows + added && |added| == createdCount
      {
        ghost var prev := rows;
        var category, created := GetOrCreate(list[i]);
        if created {
          createdCount := createdCount + 1;
          added := added + [category];
          assert rows == startRows + added by {
            assert rows == prev + [category];
          }
        } else {
          assert rows == prev;
        }
        assert Names() == Seeded(start, list[..i + 1]) by {
          SeededStep(start, list, i);
        }
        i := i + 1;
      }
      assert list[..i] == list;
      assert rows[..|startRows|] == startRows;
    }

    /** `Command.handle`: seeds the default names and returns how many
        categories it created. */
    method Handle() returns (createdCount: nat)
      requires Valid()
      modifies this
      ensures Valid()
      ensures Names() == old(Names()) + Absent(old(Names()), DefaultNames)
      ensures createdCount == |Absent(old(Names()), DefaultNames)|
      ensures createdCount == |Missing(old(Names()), DefaultNames)|
      ensures |rows| >= |old(rows)| && rows[..|old(rows)|] == old(rows)
      ensures forall n :: n in DefaultNames ==> n in Names()
    {
      ghost var before := Names();
      createdCount := SeedNames(DefaultNames);
      SeedingDefaults(before);
    }
  }
}
