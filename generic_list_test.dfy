/**
 * The unit-test scenarios of GenericList: a list of nine ArrayObject
 * elements, each test case a method whose postcondition is what the test
 * asserts.
 */
module GenericListTest {
  import opened Wrappers
  import opened Elements
  import opened ListOps
  import opened Collections

  const ArrayObjectType: TypeTag := "ArrayObject"
  const ExceptionType: TypeTag := "Exception"

  /** An ArrayObject whose 'name' entry is `name`. */
  function Named(name: string): Elem
  {
    Elem(ArrayObjectType, name)
  }

  /** The nine elements the fixture adds, in order. */
  const Team: seq<Elem> := [
    Named("John"), Named("Finch"), Named("Shaw"), Named("Carter"), Named("Kara"),
    Named("Snow"), Named("Zoey"), Named("Cal"), Named("Lionel")
  ]

  // ---------------------------------------------------------------------
  // String comparison, as PHP's `<=>` on two non-numeric strings
  // ---------------------------------------------------------------------

  /** -1, 0 or 1 as `a` comes before, equals or comes after `b`, character by character. */
  function Compare(a: string, b: string): (c: int)
    ensures -1 <= c <= 1
    ensures c == 0 <==> a == b
    decreases |a|
  {
    if a == [] then (if b == [] then 0 else -1)
    else if b == [] then 1
    else if a[0] < b[0] then -1
    else if a[0] > b[0] then 1
    else
      assert a == [a[0]] + a[1..] && b == [b[0]] + b[1..];
      Compare(a[1..], b[1..])
  }

  /** Swapping the operands flips the sign. */
  lemma {:induction false} CompareFlips(a: string, b: string)
    ensures Compare(b, a) == -Compare(a, b)
    decreases |a|
  {
    if a != [] && b != [] && a[0] == b[0] {
      CompareFlips(a[1..], b[1..]);
    }
  }

  /** "Comes no later than" is transitive. */
  lemma {:induction false} CompareTransitive(a: string, b: string, c: string)
    requires Compare(a, b) <= 0 && Compare(b, c) <= 0
    ensures Compare(a, c) <= 0
    decreases |a|
  {
    if a != [] && b != [] && c != [] && a[0] == b[0] == c[0] {
      CompareTransitive(a[1..], b[1..], c[1..]);
    }
  }

  /** The comparator of the sort test: `<=>` on the 'name' entries. */
  function ByName(a: Elem, b: Elem): (c: int)
    ensures -1 <= c <= 1
    ensures c == 0 <==> a.name == b.name
  {
    Compare(a.name, b.name)
  }

  /** Comparing by name orders elements consistently. */
  lemma ByNameIsTotalPreorder()
    ensures TotalPreorder(ByName)
  {
    forall a: Elem, b: Elem ensures ByName(a, b) <= 0 || ByName(b, a) <= 0 {
      CompareFlips(a.name, b.name);
    }
    forall a: Elem, b: Elem, c: Elem | ByName(a, b) <= 0 && ByName(b, c) <= 0
      ensures ByName(a, c) <= 0
    {
      CompareTransitive(a.name, b.name, c.name);
    }
  }

  /** Cal comes before every other name of the fixture. */
  lemma CalComesFirst(e: Elem)
    requires e in Team && e != Named("Cal")
    ensures ByName(Named("Cal"), e) < 0 && ByName(e, Named("Cal")) > 0
  {
    CompareFlips("Cal", e.name);
  }

  /** Any arrangement of the fixture sorted by name starts with Cal. */
  lemma SortedTeamStartsWithCal(s: seq<Elem>)
    requires multiset(s) == multiset(Team)
    requires Sorted(s, ByName)
    ensures s != [] && s[0] == Named("Cal")
  {
    assert Named("Cal") in multiset(Team);
    var k :| 0 <= k < |s| && s[k] == Named("Cal");
    assert s[0] in multiset(Team);
    if s[0] != Named("Cal") {
      CalComesFirst(s[0]);
      assert false;
    }
  }

  /**
   * The filter test's condition: a name of at most four letters; the index is
   * ignored. PHP's `strlen` counts bytes and `|e.name|` counts characters; the
   * two agree on the ASCII names of the fixture.
   */
  function ShortName(e: Elem, k: nat): bool
  {
    |e.name| <= 4
  }

  /**
   * The search test's condition: a name of more than four letters (as with
   * ShortName, characters stand for the bytes `strlen` counts, which agree on
   * ASCII names).
   */
  function LongName(e: Elem): bool
  {
    |e.name| > 4
  }

  /** Filtering the fixture for short names keeps John, Shaw, Kara, Snow, Zoey and Cal. */
  lemma ShortNamesOfTeam()
    ensures Select(Team, ShortName) ==
            [Named("John"), Named("Shaw"), Named("Kara"), Named("Snow"), Named("Zoey"), Named("Cal")]
  {
    SelectExtend(Team, ShortName, 0);
    SelectExtend(Team, ShortName, 1);
    SelectExtend(Team, ShortName, 2);
    SelectExtend(Team, ShortName, 3);
    SelectExtend(Team, ShortName, 4);
    SelectExtend(Team, ShortName, 5);
    SelectExtend(Team, ShortName, 6);
    SelectExtend(Team, ShortName, 7);
    SelectExtend(Team, ShortName, 8);
    assert Team[..0] == [] && Team[..9] == Team;
  }

  /** The map test's transform: the same type, with "Sr. " put before the name. */
  function Senior(e: Elem): Elem
  {
    Elem(e.tag, "Sr. " + e.name)
  }

  /** Selecting long names from the first three fixture elements keeps Finch. */
  lemma LongNamesOfFirstThree()
    ensures Select(Team[..3], Unindexed(LongName)) == [Named("Finch")]
  {
    var p := Unindexed(LongName);
    assert Team[..0] == [];
    assert !p(Team[0], 0) && p(Team[1], 1) && !p(Team[2], 2);
    SelectExtend(Team, p, 0);
    SelectExtend(Team, p, 1);
    SelectExtend(Team, p, 2);
  }

  /** Selecting long names from the first six fixture elements keeps Finch and Carter. */
  lemma LongNamesOfFirstSix()
    ensures Select(Team[..6], Unindexed(LongName)) == [Named("Finch"), Named("Carter")]
  {
    var p := Unindexed(LongName);
    LongNamesOfFirstThree();
    assert p(Team[3], 3) && !p(Team[4], 4) && !p(Team[5], 5);
    SelectExtend(Team, p, 3);
    SelectExtend(Team, p, 4);
    SelectExtend(Team, p, 5);
  }

  /** Searching the fixture for long names finds Finch, Carter and Lionel. */
  lemma LongNamesOfTeam()
    ensures Search(Team, LongName) == [Named("Finch"), Named("Carter"), Named("Lionel")]
  {
    var p := Unindexed(LongName);
    LongNamesOfFirstSix();
    assert !p(Team[6], 6) && !p(Team[7], 7) && p(Team[8], 8);
    SelectExtend(Team, p, 6);
    SelectExtend(Team, p, 7);
    SelectExtend(Team, p, 8);
    assert Team[..9] == Team;
  }

  // ---------------------------------------------------------------------
  // The fixture and the test cases
  // ---------------------------------------------------------------------

  /** A list of ArrayObject with the nine fixture elements added in order. */
  method SetUp() returns (list: GenericList)
    ensures fresh(list) && list.Valid()
    ensures list.boundType == ArrayObjectType && list.items == Team
  {
    list := new GenericList(ArrayObjectType);
    var r := list.Add(Named("John"));
    r := list.Add(Named("Finch"));
    r := list.Add(Named("Shaw"));
    r := list.Add(Named("Carter"));
    r := list.Add(Named("Kara"));
    r := list.Add(Named("Snow"));
    r := list.Add(Named("Zoey"));
    r := list.Add(Named("Cal"));
    r := list.Add(Named("Lionel"));
  }

  /** Nine adds give count 9; adding an Exception is refused. */
  method TestAddToList() returns (count: nat, refused: Outcome)
    ensures count == 9 && refused == Failed(InvalidArgument)
  {
    var list := SetUp();
    count := list.Count();
    refused := list.Add(Elem(ExceptionType, ""));
  }

  /** Clearing leaves no element. */
  method TestClearList() returns (count: nat)
    ensures count == 0
  {
    var list := SetUp();
    list.Clear();
    count := list.Count();
  }

  /** Finding the element named Finch returns it. */
  method TestFindIntoList() returns (found: Option<Elem>)
    ensures found == Some(Named("Finch"))
  {
    var list := SetUp();
    found := list.Find((e: Elem) => e.name == "Finch");
    assert Team[1].name == "Finch";
  }

  /** Index 2 holds Shaw; index 9 is out of range. */
  method TestGetFromList() returns (third: Result<Elem, ListError>, tenth: Result<Elem, ListError>)
    ensures third == Ok(Named("Shaw")) && tenth == Err(OutOfRange)
  {
    var list := SetUp();
    third := list.Get(2);
    tenth := list.Get(9);
  }

  /** Removing index 0 leaves 8 elements, Finch first; removing index 9 then fails. */
  method TestRemoveFromList() returns (count: nat, head: Result<Elem, ListError>, refused: Outcome)
    ensures count == 8 && head == Ok(Named("Finch")) && refused == Failed(OutOfRange)
  {
    var list := SetUp();
    var r := list.Remove(0);
    count := list.Count();
    head := list.Get(0);
    refused := list.Remove(9);
  }

  /** Names of at most four letters: John then Shaw; more than ten letters: no result. */
  method TestFilterList() returns (names: seq<string>, none: bool)
    ensures |names| >= 2 && names[0] == "John" && names[1] == "Shaw"
    ensures none
  {
    var list := SetUp();
    var short := list.Filter(ShortName);
    assert Team[0].name == "John";
    assert !short.None?;
    var s := short.value.items;
    ShortNamesOfTeam();
    names := [s[0].name, s[1].name];
    var long := list.Filter((e: Elem, k: nat) => |e.name| > 10);
    none := long.None?;
  }

  /** Long names: three of them, Finch first; names of more than ten letters: no result. */
  method TestSearchInList() returns (count: nat, head: Result<Elem, ListError>, none: bool)
    ensures count == 3 && head == Ok(Named("Finch"))
    ensures none
  {
    var list := SetUp();
    var long := list.Search(LongName);
    LongNamesOfTeam();
    assert Team[1] == Named("Finch");
    count, head := 0, Err(OutOfRange);
    if long.Some? {
      count := long.value.Count();
      head := long.value.Get(0);
    }
    var longer := list.Search((e: Elem) => |e.name| > 10);
    none := longer.None?;
  }

  /** Prefixing every name with "Sr. " makes the first one "Sr. John". */
  method TestMapList() returns (head: Result<Elem, ListError>)
    ensures head == Ok(Named("Sr. John"))
  {
    var list := SetUp();
    var mapped := list.Map(Senior);
    assert Senior(Named("John")) == Named("Sr. John");
    head := Err(OutOfRange);
    if mapped.Ok? {
      head := mapped.value.Get(0);
    }
  }

  /** Sorting by name succeeds and puts Cal first. */
  method TestSortList() returns (isSorted: bool, head: Result<Elem, ListError>)
    ensures isSorted && head == Ok(Named("Cal"))
  {
    var list := SetUp();
    ByNameIsTotalPreorder();
    isSorted := list.Sort(ByName);
    SortedTeamStartsWithCal(list.items);
    head := list.Get(0);
  }

  /** The reversed fixture starts with Lionel; reversing an empty list fails. */
  method TestReverseList() returns (head: Result<Elem, ListError>, refused: Result<GenericList, ListError>)
    ensures head == Ok(Named("Lionel"))
    ensures refused.Err? && refused.error == InvalidOperation
  {
    var list := SetUp();
    var reversed := list.Reverse();
    head := Err(OutOfRange);
    if reversed.Ok? {
      head := reversed.value.Get(0);
    }
    var empty := new GenericList(ArrayObjectType);
    refused := empty.Reverse();
  }

  /** A random pick is one of the fixture's elements; picking from an empty list fails. */
  method TestRandElementFromList() returns (picked: Result<Elem, ListError>, refused: Result<Elem, ListError>)
    ensures picked.Ok? && picked.value in Team
    ensures refused == Err(InvalidOperation)
  {
    var list := SetUp();
    picked := list.Rand();
    var empty := new GenericList(ArrayObjectType);
    refused := empty.Rand();
  }

  /** Index 0 exists; index 20 does not. */
  method TestIndexExistsInList() returns (zero: bool, twenty: bool)
    ensures zero && !twenty
  {
    var list := SetUp();
    zero := list.Exists(0);
    twenty := list.Exists(20);
  }

  /** Merging Max and Alex gives eleven elements with Max at index 9. */
  method TestCombineSomeLists() returns (count: nat, tenth: Result<Elem, ListError>)
    ensures count == 11 && tenth == Ok(Named("Max"))
  {
    var list := SetUp();
    var merged := list.Merge([Named("Max"), Named("Alex")]);
    count, tenth := 0, Err(OutOfRange);
    if merged.Ok? {
      count := merged.value.Count();
      tenth := merged.value.Get(9);
      assert merged.value.items[9] == merged.value.items[9..][0];
    }
  }

  /** The first element is John. */
  method TestGetFirstElementOfList() returns (head: Result<Elem, ListError>)
    ensures head == Ok(Named("John"))
  {
    var list := SetUp();
    head := list.First();
  }

  /** The last element is Lionel. */
  method TestGetLastElementOfList() returns (tail: Result<Elem, ListError>)
    ensures tail == Ok(Named("Lionel"))
  {
    var list := SetUp();
    tail := list.Last();
  }
}
