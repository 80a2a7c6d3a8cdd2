# GenericList (phpcollections) in Dafny

This project models `GenericList` from the phpcollections library. A
`GenericList` is a growable list with zero-based indices. It is bound at
construction to one element type and accepts only elements of that type. It
has in-place updates (`add`, `remove`, `clear`, `sort`) and read-only
operations that return a value or a new list (`get`, `exists`, `first`,
`last`, `find`, `filter`, `search`, `map`, `reverse`, `merge`, `rand`).
Each operation signals a typed failure:

- `InvalidArgument` for an element of the wrong type;
- `OutOfRange` for an index that names no element;
- `InvalidOperation` for reversing, or picking from, an empty list.

`filter` and `search` return a distinguished "no result" value when nothing
matches. This is not an error.

The behaviour follows the unit tests in `tests/Unit/GenericListTest.php`.
The implementation file of GenericList is not part of this model.

Files:

- `wrappers.dfy`: module `Wrappers` declares `Option` ("no result") and
  `Result` (a value or an error).
- `elements.dfy`: module `Elements` declares an element. An element is a
  type tag (the PHP class name) plus the `name` entry of its `ArrayObject`.
  `Conforms` says that every element of a sequence has a given tag.
- `list_ops.dfy`: module `ListOps` holds the transformations as functions
  over `seq<Elem>` and proves what they mean:
  - `Select` keeps the matching elements; `Search` is `Select` that ignores
    the index; `FindIndex`; `Apply`; `Reversed`;
  - `SortBy` is an insertion sort, with `Sorted` and `TotalPreorder` for
    comparators.
- `generic_list.dfy`: module `Collections` holds the error kinds and the
  class `GenericList`. The class has a `boundType` constant and an `items`
  sequence. `Valid()` is its invariant: every item has the bound type.
  In-place operations are methods with `modifies this`. Accessors are
  functions that read `this`. Transformations are methods that return a
  fresh list.
- `generic_list_test.dfy`: module `GenericListTest` holds the test fixture,
  a list of nine `ArrayObject` elements, and one method per test case. Each
  method's postcondition is what that test case asserts. `Compare` models
  PHP's `<=>` on two non-numeric strings, which is what the sort test uses.

## Model

| member | source | states |
|---|---|---|
| `Collections.GenericList.constructor` | tests/Unit/GenericListTest.php:12 | a new list has the given bound type, no elements, and satisfies the invariant |
| `Collections.GenericList.Count` | tests/Unit/GenericListTest.php:29 | the count is the number of elements held, and is 0 exactly for an empty list |
| `Collections.GenericList.Add` | tests/Unit/GenericListTest.php:27-31 | an element of the bound type is appended and becomes the last element (`get(count-1)`); any other element yields InvalidArgument and leaves the list unchanged; the invariant is kept |
| `Collections.GenericList.Clear` | tests/Unit/GenericListTest.php:33-36 | afterwards the list is empty (count 0) and still valid |
| `Collections.GenericList.Find` | tests/Unit/GenericListTest.php:40-47 | returns an element satisfying the test such that no earlier index satisfies it; returns no result exactly when no element satisfies it |
| `Collections.GenericList.Get` | tests/Unit/GenericListTest.php:53-58 | succeeds exactly for `0 <= index < count` and then returns the element at that index; otherwise OutOfRange |
| `Collections.GenericList.Remove` | tests/Unit/GenericListTest.php:63-70 | succeeds exactly for an index in range; count drops by one, earlier elements stay and later ones move down one place; otherwise OutOfRange and no change |
| `Collections.GenericList.Filter` | tests/Unit/GenericListTest.php:75-89 | no result exactly when no (element, index) pair matches; otherwise a fresh, valid, non-empty list of the same bound type holding `Select(items, p)` |
| `Collections.GenericList.Search` | tests/Unit/GenericListTest.php:95-107 | no result exactly when no element matches; otherwise a fresh, valid, non-empty list of the same bound type holding the matching elements in order |
| `Collections.GenericList.Map` | tests/Unit/GenericListTest.php:109-116 | InvalidArgument exactly when some transformed element lacks the bound type; otherwise a fresh, valid list whose i-th element is the transform of the i-th element |
| `Collections.GenericList.Sort` | tests/Unit/GenericListTest.php:118-126 | returns true; the new contents are a permutation of the old; whenever the comparator is a total preorder they are sorted and the first element is a least one; the invariant is kept; the order of tied elements is not promised |
| `Collections.GenericList.Reverse` | tests/Unit/GenericListTest.php:131-138 | InvalidOperation exactly on an empty list; otherwise a fresh, valid list of the elements in reverse order; the source is not modified |
| `Collections.GenericList.Rand` | tests/Unit/GenericListTest.php:143-150 | InvalidOperation exactly on an empty list; otherwise one of the list's elements, which is not removed |
| `Collections.GenericList.Exists` | tests/Unit/GenericListTest.php:152-156 | true exactly when the index is in `0 .. count-1` |
| `Collections.GenericList.Merge` | tests/Unit/GenericListTest.php:158-165 | InvalidArgument exactly when an extra element lacks the bound type; otherwise a fresh, valid list of length `count + |extra|`, with this list as its prefix and `extra` as its suffix |
| `Collections.GenericList.First` | tests/Unit/GenericListTest.php:167-171 | the same as `get(0)`: the element at index 0, or OutOfRange on an empty list |
| `Collections.GenericList.Last` | tests/Unit/GenericListTest.php:173-177 | the same as `get(count-1)`: the last element, or OutOfRange on an empty list |
| `ListOps.Select` | tests/Unit/GenericListTest.php:77-82 | a filter result is never longer than its input and holds only elements of the input |
| `ListOps.SelectIndices` | tests/Unit/GenericListTest.php:77-82 | the filter result is the input read at a strictly increasing sequence of indices, and an index is among them exactly when its element and index match: the matches and only the matches, in original order |
| `ListOps.SelectEmptyIff` | tests/Unit/GenericListTest.php:84-88 | the filter result is empty exactly when no element matches; this decides the "no result" value |
| `ListOps.SelectExtend` | tests/Unit/GenericListTest.php:77-82 | one more input element extends the filter result by that element exactly when it matches at its index |
| `ListOps.SelectConforms` | tests/Unit/GenericListTest.php:77-82 | filtering a list of the bound type gives a list of the bound type |
| `ListOps.SelectMatching` | tests/Unit/GenericListTest.php:77-82 | every element the filter keeps occurs in the input at an index where it matches |
| `ListOps.Search` | tests/Unit/GenericListTest.php:97-106 | every search result element is in the list and satisfies the test, and the result is empty exactly when no element does; the order is that of `Select(s, Unindexed(q))`, which `SelectIndices` characterises |
| `ListOps.SearchMembers` | tests/Unit/GenericListTest.php:97-106 | search misses no match: every matching element of the list is in the result (the converse and emptiness are stated by `ListOps.Search`) |
| `ListOps.SearchExtend` | tests/Unit/GenericListTest.php:97-100 | one more input element extends the search result by that element exactly when it matches |
| `ListOps.FindIndex` | tests/Unit/GenericListTest.php:42-44 | returns the least index whose element satisfies the test, or none exactly when no element does |
| `ListOps.FindIsFirstOfSearch` | tests/Unit/GenericListTest.php:42-47 | find and search agree: find has no result exactly when search is empty, and otherwise find's element is the head of the search result |
| `ListOps.Apply` | tests/Unit/GenericListTest.php:111-115 | the mapped list has the same length, and its i-th element is the transform of the i-th element |
| `ListOps.ApplyIdentity` | tests/Unit/GenericListTest.php:111-114 | mapping with the identity gives back the same elements |
| `ListOps.Reversed` | tests/Unit/GenericListTest.php:133-134 | the reverse has the same length, and its k-th element is the source's element `n-1-k`, so index 0 holds the source's last element |
| `ListOps.ReversedTwice` | tests/Unit/GenericListTest.php:133-134 | reversing twice gives back the original order |
| `ListOps.ReversedPermutes` | tests/Unit/GenericListTest.php:133-134 | reversing neither adds nor loses an element (same multiset) |
| `ListOps.Insert` | tests/Unit/GenericListTest.php:120-122 | insertion adds exactly the one element (multiset) |
| `ListOps.SortBy` | tests/Unit/GenericListTest.php:120-124 | sorting is a permutation of its input |
| `ListOps.InsertSorted` | tests/Unit/GenericListTest.php:120-124 | under a total-preorder comparator, inserting into a sorted sequence keeps it sorted |
| `ListOps.SortBySorted` | tests/Unit/GenericListTest.php:120-124 | under a total-preorder comparator, the result of sorting is sorted |
| `ListOps.SortedHeadIsLeast` | tests/Unit/GenericListTest.php:120-124 | the first element of a sorted non-empty list is a least element under the comparator |
| `GenericListTest.Compare` | tests/Unit/GenericListTest.php:121 | `<=>` on strings yields -1, 0 or 1, and 0 exactly for equal strings |
| `GenericListTest.CompareFlips` | tests/Unit/GenericListTest.php:121 | swapping the operands of `<=>` negates the result |
| `GenericListTest.CompareTransitive` | tests/Unit/GenericListTest.php:121 | "no later than" under `<=>` is transitive |
| `GenericListTest.ByName` | tests/Unit/GenericListTest.php:120-122 | the sort test's comparator yields -1, 0 or 1, and 0 exactly for equal names |
| `GenericListTest.ByNameIsTotalPreorder` | tests/Unit/GenericListTest.php:120-122 | the sort test's comparator (by name) is a total preorder |
| `GenericListTest.CalComesFirst` | tests/Unit/GenericListTest.php:124 | Cal compares strictly before every other fixture name |
| `GenericListTest.SortedTeamStartsWithCal` | tests/Unit/GenericListTest.php:118-124 | every arrangement of the fixture sorted by name starts with Cal |
| `GenericListTest.ShortName` | tests/Unit/GenericListTest.php:77-79 | definition, no contract: the filter test's closure, `strlen <= 4` counted in characters, index ignored |
| `GenericListTest.LongName` | tests/Unit/GenericListTest.php:97-99 | definition, no contract: the search test's closure, `strlen > 4` counted in characters |
| `GenericListTest.Senior` | tests/Unit/GenericListTest.php:111-114 | definition, no contract: the map test's closure, the same element type with "Sr. " put before the name |
| `GenericListTest.ShortNamesOfTeam` | tests/Unit/GenericListTest.php:77-82 | filtering the fixture for names of at most four letters gives John, Shaw, Kara, Snow, Zoey, Cal |
| `GenericListTest.LongNamesOfTeam` | tests/Unit/GenericListTest.php:97-101 | searching the fixture for names longer than four letters gives Finch, Carter, Lionel |
| `GenericListTest.SetUp` | tests/Unit/GenericListTest.php:10-22 | the nine adds give a valid ArrayObject list holding the fixture in order |
| `GenericListTest.TestAddToList` | tests/Unit/GenericListTest.php:27-31 | count is 9, and adding an Exception yields InvalidArgument |
| `GenericListTest.TestClearList` | tests/Unit/GenericListTest.php:33-36 | count is 0 after clear |
| `GenericListTest.TestFindIntoList` | tests/Unit/GenericListTest.php:40-47 | finding the name Finch returns the Finch element (not Lionel) |
| `GenericListTest.TestGetFromList` | tests/Unit/GenericListTest.php:53-58 | `get(2)` is Shaw and `get(9)` is OutOfRange |
| `GenericListTest.TestRemoveFromList` | tests/Unit/GenericListTest.php:63-70 | after `remove(0)` the count is 8 and index 0 holds Finch (not John); `remove(9)` is OutOfRange |
| `GenericListTest.TestFilterList` | tests/Unit/GenericListTest.php:75-88 | the short-name filter starts with John then Shaw; the filter for names of more than ten letters gives no result |
| `GenericListTest.TestSearchInList` | tests/Unit/GenericListTest.php:95-107 | the long-name search has 3 elements, Finch first; the search for names of more than ten letters gives no result |
| `GenericListTest.TestMapList` | tests/Unit/GenericListTest.php:109-116 | after prefixing "Sr. " the first element is "Sr. John" |
| `GenericListTest.TestSortList` | tests/Unit/GenericListTest.php:118-126 | sorting by name returns true and puts Cal at index 0 |
| `GenericListTest.TestReverseList` | tests/Unit/GenericListTest.php:131-138 | the reverse starts with Lionel; reversing an empty list yields InvalidOperation |
| `GenericListTest.TestRandElementFromList` | tests/Unit/GenericListTest.php:143-150 | a random pick is a fixture element; picking from an empty list yields InvalidOperation |
| `GenericListTest.TestIndexExistsInList` | tests/Unit/GenericListTest.php:152-156 | index 0 exists and index 20 does not |
| `GenericListTest.TestCombineSomeLists` | tests/Unit/GenericListTest.php:158-165 | merging Max and Alex gives 11 elements, with Max at index 9 |
| `GenericListTest.TestGetFirstElementOfList` | tests/Unit/GenericListTest.php:167-171 | the first element is John |
| `GenericListTest.TestGetLastElementOfList` | tests/Unit/GenericListTest.php:173-177 | the last element is Lionel |

## Left out

- The `strict` argument of `filter` and the `ArgumentCountError` it raises (tests/Unit/GenericListTest.php:90-92) are left out. They enforce the arity of a PHP callback. A Dafny predicate has a fixed signature, so the error cannot arise.
- Type conformance is an equality test on the element's type tag. PHP's `instanceof` also accepts subclasses and interface implementations, which the model does not.
- Collections.GenericList.Rand: the choice is nondeterministic over the valid indices. The model says nothing about uniform distribution or the random source.
- Collections.GenericList.Map: the callback receives the same `ArrayObject` that the source list holds, so the test's callback also changes the elements of the source list. The model's transform returns new element values, and the source list stays unchanged.
- Collections.GenericList.Sort: PHP's `usort` algorithm and its stability are not modelled. The body uses an insertion sort. The contract promises only a permutation, sorted with a least element first when the comparator is a total preorder. It says nothing about the order of tied elements or about the result for an inconsistent comparator.
- GenericListTest.ShortName, GenericListTest.LongName: PHP's `strlen` counts bytes and the model counts characters. They agree on the ASCII fixture names.
- GenericListTest.Compare: PHP's `<=>` compares numeric strings as numbers. The model compares character by character only, which is what it does for the non-numeric fixture names.
- An element holds only the `name` entry of its `ArrayObject`. Other entries and the `ArrayAccess`/`Countable` interfaces are not modelled; `Count()` gives the length.
- Collections.GenericList.First, Collections.GenericList.Last: the tests call these only on a non-empty list. On an empty list the model signals OutOfRange, like `get`.
- Collections.GenericList.Map: on an empty list the model returns an empty list rather than a "no result" value. The tests do not exercise this case.
