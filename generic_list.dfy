/**
 * GenericList: a growable, zero-indexed list that accepts only elements of
 * the type it was created for, with typed failures for a wrong element type,
 * an index out of range and an operation that needs a non-empty list.
 */
module Collections {
  import opened Wrappers
  import opened Elements
  import opened ListOps

  /** The failures a list operation signals. */
  datatype ListError =
    | InvalidArgument   // an element is not of the list's type
    | OutOfRange        // an index outside 0 .. count - 1
    | InvalidOperation  // the operation needs a non-empty list

  /** The outcome of an operation that returns nothing on success. */
  datatype Outcome = Done | Failed(error: ListError)

  class GenericList {
    /** The type every element must have; fixed at construction. */
    const boundType: TypeTag
    /** The elements, at indices 0 .. |items| - 1. */
    var items: seq<Elem>

    /** The list invariant: every element has the bound type. */
    ghost predicate Valid()
      reads this
    {
      Conforms(items, boundType)
    }

    /** An empty list for elements of type `boundType`. */
    constructor (boundType: TypeTag)
      ensures this.boundType == boundType && items == [] && Valid()
    {
      this.boundType := boundType;
      items := [];
    }

    /** The number of elements. */
    function Count(): (n: nat)
      reads this
      ensures n == |items|
      ensures n == 0 <==> items == []
    {
      |items|
    }

    /** Whether `index` names an element. Never fails. */
    function Exists(index: int): (b: bool)
      reads this
      ensures b <==> 0 <= index < Count()
    {
      0 <= index < |items|
    }

    /** The element at `index`, or OutOfRange. */
    function Get(index: int): (r: Result<Elem, ListError>)
      reads this
      ensures r.Ok? <==> Exists(index)
      ensures r.Ok? ==> r.value == items[index]
      ensures r.Err? ==> r.error == OutOfRange
    {
      if 0 <= index < |items| then Ok(items[index]) else Err(OutOfRange)
    }

    /** The element at index 0; on an empty list the same failure as `Get(0)`. */
    function First(): (r: Result<Elem, ListError>)
      reads this
      ensures r == Get(0)
      ensures r.Ok? <==> items != []
    {
      if items == [] then Err(OutOfRange) else Ok(items[0])
    }

    /** The element at index Count() - 1; on an empty list the same failure as `Get`. */
    function Last(): (r: Result<Elem, ListError>)
      reads this
      ensures r == Get(Count() - 1)
      ensures r.Ok? <==> items != []
    {
      if items == [] then Err(OutOfRange) else Ok(items[|items| - 1])
    }

    /** The first element, in index order, that satisfies `q`; None if there is none. */
    function Find(q: Elem -> bool): (r: Option<Elem>)
      reads this
      ensures r.None? <==> forall e :: e in items ==> !q(e)
      ensures r.Some? ==> q(r.value)
      ensures r.Some? ==> exists i :: 0 <= i < |items| && items[i] == r.value &&
                                     forall j :: 0 <= j < i ==> !q(items[j])
    {
      match FindIndex(items, q)
      case None => None
      case Some(i) => Some(items[i])
    }

    /** Appends `e` if it has the bound type; otherwise InvalidArgument and no change. */
    method Add(e: Elem) returns (r: Outcome)
      requires Valid()
      modifies this
      ensures Valid()
      ensures r.Done? <==> e.tag == boundType
      ensures r.Done? ==> items == old(items) + [e] && Get(Count() - 1) == Ok(e)
      ensures r.Failed? ==> r.error == InvalidArgument && items == old(items)
    {
      if e.tag == boundType {
        items := items + [e];
        r := Done;
      } else {
        r := Failed(InvalidArgument);
      }
    }

    /** Empties the list. Never fails. */
    method Clear()
      requires Valid()
      modifies this
      ensures Valid() && items == [] && Count() == 0
    {
      items := [];
    }

    /**
     * Removes the element at `index`; later elements move down one place.
     * OutOfRange and no change if `index` names no element.
     */
    method Remove(index: int) returns (r: Outcome)
      requires Valid()
      modifies this
      ensures Valid()
      ensures r.Done? <==> 0 <= index < old(|items|)
      ensures r.Failed? ==> r.error == OutOfRange && items == old(items)
      ensures r.Done? ==> |items| == old(|items|) - 1
      ensures r.Done? ==> forall j :: 0 <= j < index ==> items[j] == old(items)[j]
      ensures r.Done? ==> forall j :: index <= j < |items| ==> items[j] == old(items)[j + 1]
    {
      if 0 <= index < |items| {
        items := items[..index] + items[index + 1..];
        r := Done;
      } else {
        r := Failed(OutOfRange);
      }
    }

    /**
     * Reorders the list in place by the three-way comparator `cmp` and
     * reports success. The result is a rearrangement of the elements; it is
     * in order whenever `cmp` orders elements consistently (a total preorder),
     * and then its first element is a least one under `cmp`.
     */
    method Sort(cmp: (Elem, Elem) -> int) returns (sorted: bool)
      requires Valid()
      modifies this
      ensures Valid() && sorted
      ensures multiset(items) == multiset(old(items))
      ensures TotalPreorder(cmp) ==> Sorted(items, cmp)
      ensures TotalPreorder(cmp) && items != [] ==> forall e :: e in items ==> cmp(items[0], e) <= 0
    {
      ghost var before := items;
      items := SortBy(items, cmp);
      assert forall e :: e in items ==> e in multiset(before);
      if TotalPreorder(cmp) {
        SortBySorted(before, cmp);
        if items != [] {
          SortedHeadIsLeast(items, cmp);
        }
      }
      sorted := true;
    }

    /**
     * A new list of the elements `e` at index `i` with `p(e, i)`, in order;
     * None, not an empty list, when nothing matches.
     */
    method Filter(p: (Elem, nat) -> bool) returns (r: Option<GenericList>)
      requires Valid()
      ensures r.None? <==> forall i :: 0 <= i < |items| ==> !p(items[i], i)
      ensures r.Some? ==> fresh(r.value) && r.value.boundType == boundType && r.value.Valid()
      ensures r.Some? ==> r.value.items == Select(items, p) && r.value.items != []
    {
      var matched := Select(items, p);
      SelectEmptyIff(items, p);
      SelectConforms(items, p, boundType);
      if matched == [] {
        r := None;
      } else {
        var list := new GenericList(boundType);
        list.items := matched;
        r := Some(list);
      }
    }

    /**
     * A new list of the elements that satisfy `q`, in order; None, not an
     * empty list, when nothing matches.
     */
    method Search(q: Elem -> bool) returns (r: Option<GenericList>)
      requires Valid()
      ensures r.None? <==> forall e :: e in items ==> !q(e)
      ensures r.Some? ==> fresh(r.value) && r.value.boundType == boundType && r.value.Valid()
      ensures r.Some? ==> r.value.items == ListOps.Search(items, q) && r.value.items != []
    {
      var matched := ListOps.Search(items, q);
      SearchMembers(items, q);
      if matched == [] {
        r := None;
      } else {
        var list := new GenericList(boundType);
        list.items := matched;
        r := Some(list);
      }
    }

    /**
     * A new list of `f` applied to each element, index by index; InvalidArgument
     * if some result does not have the bound type.
     */
    method Map(f: Elem -> Elem) returns (r: Result<GenericList, ListError>)
      ensures r.Err? <==> exists i :: 0 <= i < |items| && f(items[i]).tag != boundType
      ensures r.Err? ==> r.error == InvalidArgument
      ensures r.Ok? ==> fresh(r.value) && r.value.boundType == boundType && r.value.Valid()
      ensures r.Ok? ==> r.value.items == Apply(items, f)
    {
      var mapped := Apply(items, f);
      if Conforms(mapped, boundType) {
        var list := new GenericList(boundType);
        list.items := mapped;
        r := Ok(list);
      } else {
        ghost var e :| e in mapped && e.tag != boundType;
        ghost var i :| 0 <= i < |mapped| && mapped[i] == e;
        r := Err(InvalidArgument);
      }
    }

    /** A new list with the elements in reverse order; InvalidOperation if empty. */
    method Reverse() returns (r: Result<GenericList, ListError>)
      requires Valid()
      ensures r.Err? <==> items == []
      ensures r.Err? ==> r.error == InvalidOperation
      ensures r.Ok? ==> fresh(r.value) && r.value.boundType == boundType && r.value.Valid()
      ensures r.Ok? ==> r.value.items == Reversed(items)
    {
      if items == [] {
        r := Err(InvalidOperation);
      } else {
        var list := new GenericList(boundType);
        list.items := Reversed(items);
        ReversedPermutes(items);
        assert forall e :: e in list.items ==> e in multiset(items);
        r := Ok(list);
      }
    }

    /**
     * A new list of this list's elements followed by `extra`'s; InvalidArgument
     * if some element of `extra` does not have the bound type.
     */
    method Merge(extra: seq<Elem>) returns (r: Result<GenericList, ListError>)
      requires Valid()
      ensures r.Err? <==> !Conforms(extra, boundType)
      ensures r.Err? ==> r.error == InvalidArgument
      ensures r.Ok? ==> fresh(r.value) && r.value.boundType == boundType && r.value.Valid()
      ensures r.Ok? ==> |r.value.items| == |items| + |extra|
      ensures r.Ok? ==> r.value.items[..|items|] == items && r.value.items[|items|..] == extra
    {
      if Conforms(extra, boundType) {
        var list := new GenericList(boundType);
        list.items := items + extra;
        r := Ok(list);
      } else {
        r := Err(InvalidArgument);
      }
    }

    /** Some element of the list, left in place; InvalidOperation if empty. */
    method Rand() returns (r: Result<Elem, ListError>)
      ensures r.Err? <==> items == []
      ensures r.Err? ==> r.error == InvalidOperation
      ensures r.Ok? ==> r.value in items
    {
      if items == [] {
        r := Err(InvalidOperation);
      } else {
        var i :| 0 <= i < |items|;
        r := Ok(items[i]);
      }
    }
  }
}
