/** The ring behind Go's container/list, for patches: the patch buffer, and the shallow copy the compilers walk. */
module PatchLists {
  import opened Wrappers
  import opened Strings
  import opened Compile

  class Element {
    var next: Element?
    var prev: Element?
    var list: PatchList?
    var value: Option<Patch>

    constructor (value: Option<Patch>)
      ensures this.value == value && next == null && prev == null && list == null
    {
      next, prev, list := null, null, null;
      this.value := value;
    }

    /** The following element; null once the ring is back at the root of the owning list. */
    function Next(): Element?
      reads this
    {
      if list != null && next != list.root then next else null
    }
  }

  class PatchList {
    const root: Element
    var len: int
    ghost var elems: seq<Element>
    ghost var values: seq<Patch>  // the contents, in order

    /** The list owns its elements and links them, in order, into a ring through its root. */
    ghost predicate Valid()
      reads this, root, elems
    {
      && root !in elems && root.list == null && Distinct(elems)
      && len == |elems|
      && Holds(this, elems, values)
      && Forward(root, elems) && Backward(root, elems)
    }

    constructor ()
      ensures Valid() && values == [] && elems == [] && fresh(root)
    {
      root := new Element(None);
      len, elems, values := 0, [], [];
      new;
      root.next, root.prev := root, root;
    }

    /** Go's assignment of a list value: the head is copied, the elements are shared. */
    constructor Copy(l: PatchList)
      requires l.Valid()
      ensures Walks(this, l, l.elems, l.values) && fresh(root)
    {
      root := new Element(None);
      len, elems, values := l.len, l.elems, l.values;
      new;
      root.next, root.prev := l.root.next, l.root.prev;
    }

    method Init()
      requires Valid()
      modifies this, root
      ensures Valid() && values == [] && elems == []
    {
      root.next, root.prev := root, root;
      len := 0;
      elems, values := [], [];
    }

    function Front(): Element?
      reads this, root
    {
      if len == 0 then null else root.next
    }

    method PushBack(v: Patch)
      requires Valid()
      modifies this, root, elems
      ensures Valid() && values == old(values) + [v]
      ensures exists e :: fresh(e) && elems == old(elems) + [e]
    {
      var e := new Element(Some(v));
      InsertAfter(e, root.prev);
      values := values + [v];
    }

    /** Links a new element behind the last one. */
    method InsertAfter(e: Element, at: Element?)
      requires Valid() && e !in elems && e != root && at == root.prev && e.value.Some?
      modifies this`len, this`elems, root, elems, e
      ensures root !in elems && root.list == null && Distinct(elems) && len == |elems|
      ensures elems == old(elems) + [e]
      ensures Forward(root, elems) && Backward(root, elems)
      ensures e.list == this && forall i | 0 <= i < |old(elems)| :: elems[i].list == this
      ensures e.value == old(e.value) && forall i | 0 <= i < |old(elems)| :: elems[i].value == old(elems[i].value)
    {
      var n := at.next;
      at.next := e;
      e.prev := at;
      e.next := n;
      n.prev := e;
      e.list := this;
      len := len + 1;
      elems := elems + [e];
    }

    /** Appends a copy of another list's values. */
    method PushBackList(other: PatchList)
      requires Valid() && other.Valid() && other != this && other.root != root
      modifies this, root, elems
      ensures Valid() && values == old(values) + other.values
      ensures forall e | e in elems :: e in old(elems) || fresh(e)
    {
      hide Valid;
      OtherElements(other);
      other.WalkSees();
      var i, e := other.len, other.Front();
      ghost var k := 0;
      while i > 0
        invariant 0 <= k <= |other.elems| && i == |other.elems| - k
        invariant i > 0 ==> e == other.elems[k]
        invariant Valid() && other.Valid() && SharesNothing(other)
        invariant values == old(values) + other.values[..k]
        invariant forall e | e in elems :: e in old(elems) || fresh(e)
      {
        other.WalkSees();
        assert forall j | 0 <= j < |elems| :: elems[j] in old(elems) || fresh(elems[j]);
        assert other.values[..k + 1] == other.values[..k] + [other.values[k]];
        PushBack(e.value.value);
        e := e.Next();
        i, k := i - 1, k + 1;
        OtherElements(other);
      }
    }

    ghost predicate SharesNothing(other: PatchList)
      reads this, other
    {
      && other.root !in elems && root !in other.elems
      && forall e | e in other.elems :: e !in elems
    }

    /** Two lists share no element: each element knows its list. */
    lemma {:induction false} OtherElements(other: PatchList)
      requires Valid() && other.Valid() && other != this
      ensures SharesNothing(other)
    {
    }

    /** What a walk over the list sees. */
    lemma {:induction false} WalkSees()
      requires Valid()
      ensures len == |elems| == |values|
      ensures Front() == if elems == [] then null else elems[0]
      ensures forall i | 0 <= i < |elems| ::
                && elems[i].value == Some(values[i])
                && elems[i].Next() == if i + 1 < |elems| then elems[i + 1] else null
    {
      forall i | 0 <= i < |elems|
        ensures elems[i].Next() == if i + 1 < |elems| then elems[i + 1] else null
      {
        if i + 1 < |elems| {
          assert elems[i].next == elems[i + 1] && elems[i + 1] in elems;
        }
      }
    }
  }

  ghost predicate Holds(owner: PatchList, elems: seq<Element>, values: seq<Patch>)
    reads elems
  {
    && |values| == |elems|
    && forall i | 0 <= i < |elems| :: elems[i].list == owner && elems[i].value == Some(values[i])
  }

  ghost predicate Forward(root: Element, elems: seq<Element>)
    reads root, elems
  {
    && root.next == (if elems == [] then root else elems[0])
    && (forall i | 0 <= i < |elems| - 1 :: elems[i].next == elems[i + 1])
    && (elems != [] ==> elems[|elems| - 1].next == root)
  }

  ghost predicate Backward(root: Element, elems: seq<Element>)
    reads root, elems
  {
    && root.prev == (if elems == [] then root else elems[|elems| - 1])
    && (forall i | 0 < i < |elems| :: elems[i].prev == elems[i - 1])
    && (elems != [] ==> elems[0].prev == root)
  }

  /** A walk from `head` meets `elems`, which hold `values`; their list is `owner`, which need not be `head`. */
  ghost predicate Walks(head: PatchList, owner: PatchList, elems: seq<Element>, values: seq<Patch>)
    reads head, head.root, elems
  {
    && owner.root !in elems
    && head.len == |elems|
    && Holds(owner, elems, values)
    && (elems != [] ==> head.root.next == elems[0])
    && (forall i | 0 <= i < |elems| - 1 :: elems[i].next == elems[i + 1])
    && (elems != [] ==> elems[|elems| - 1].next == owner.root)
  }

  /** How the patch buffer is drained: copy the list head, then initialise the original. */
  method Drain(buffer: PatchList) returns (patches: PatchList)
    requires buffer.Valid()
    modifies buffer, buffer.root
    ensures Walks(patches, buffer, old(buffer.elems), old(buffer.values))
    ensures fresh(patches) && fresh(patches.root)
    ensures buffer.Valid() && buffer.values == [] && buffer.elems == []
  {
    patches := new PatchList.Copy(buffer);
    buffer.Init();
  }

  /** Patches buffered after draining do not disturb the walk over the drained ones. */
  method DrainThenBuffer(buffer: PatchList, later: seq<Patch>) returns (patches: PatchList)
    requires buffer.Valid()
    modifies buffer, buffer.root
    ensures Walks(patches, buffer, old(buffer.elems), old(buffer.values))
    ensures buffer.Valid() && buffer.values == later
  {
    patches := Drain(buffer);
    for i := 0 to |later|
      invariant buffer.Valid() && buffer.values == later[..i]
      invariant forall j | 0 <= j < |buffer.elems| :: fresh(buffer.elems[j])
      invariant Walks(patches, buffer, old(buffer.elems), old(buffer.values))
      invariant fresh(patches) && fresh(patches.root) && patches.root != buffer.root
      invariant patches != buffer && patches.root !in buffer.elems
    {
      assert forall j | 0 <= j < |old(buffer.elems)| :: old(buffer.elems)[j] !in buffer.elems;
      buffer.PushBack(later[i]);
      assert later[..i + 1] == later[..i] + [later[i]];
    }
    assert later[..|later|] == later;
  }
}
